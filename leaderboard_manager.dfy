/**
 * The in-memory part of `LeaderboardManager` (src/leaderboard_manager.py):
 * one list of entries per difficulty, kept sorted by score, best first, and
 * cut to ten entries. Reading and writing the JSON file is not modelled, and
 * the entry's date stamp is passed in.
 */
module Leaderboard {
  import opened Wrappers

  datatype Entry = Entry(name: string, score: int, date: string)

  /** Indexing the table with a missing difficulty raises `KeyError`. */
  datatype LeaderboardError = KeyError(key: string)

  const MaxEntries: nat := 10

  function CreateDefaultLeaderboard(): (board: map<string, seq<Entry>>)
    ensures board.Keys == {"easy", "medium", "hard"}
    ensures forall d | d in board :: board[d] == []
  {
    map["easy" := [], "medium" := [], "hard" := []]
  }

  /** `dict.get(difficulty, [])`. */
  function Lookup(board: map<string, seq<Entry>>, difficulty: string): seq<Entry> {
    if difficulty in board then board[difficulty] else []
  }

  predicate SortedDesc(s: seq<Entry>) {
    forall i, j | 0 <= i < j < |s| :: s[i].score >= s[j].score
  }

  /** The entries of `s` whose score is `v`, in their order in `s`. */
  function WithScore(s: seq<Entry>, v: int): seq<Entry> {
    if s == [] then [] else (if s[0].score == v then [s[0]] else []) + WithScore(s[1..], v)
  }

  lemma {:induction false} WithScoreAppend(a: seq<Entry>, b: seq<Entry>, v: int)
    ensures WithScore(a + b, v) == WithScore(a, v) + WithScore(b, v)
  {
    if a != [] {
      var head := if a[0].score == v then [a[0]] else [];
      assert (a + b)[0] == a[0] && (a + b)[1..] == a[1..] + b;
      WithScoreAppend(a[1..], b, v);
      calc {
        WithScore(a + b, v);
        head + WithScore(a[1..] + b, v);
        head + (WithScore(a[1..], v) + WithScore(b, v));
        (head + WithScore(a[1..], v)) + WithScore(b, v);
      }
    } else {
      assert a + b == b;
    }
  }

  lemma {:induction false} WithScoreNone(s: seq<Entry>, v: int)
    requires forall i | 0 <= i < |s| :: s[i].score != v
    ensures WithScore(s, v) == []
  {
    if s != [] {
      WithScoreNone(s[1..], v);
    }
  }

  /** Where a stable descending sort puts a new last element: after every leading entry scoring at least as much. */
  function InsertPos(s: seq<Entry>, e: Entry): (k: nat)
    ensures k <= |s|
    ensures forall i | 0 <= i < k :: s[i].score >= e.score
    ensures k < |s| ==> s[k].score < e.score
  {
    if s == [] then 0
    else if s[0].score >= e.score then 1 + InsertPos(s[1..], e)
    else 0
  }

  function InsertDesc(s: seq<Entry>, e: Entry): seq<Entry> {
    var k := InsertPos(s, e);
    s[..k] + [e] + s[k..]
  }

  /** Inserting into a sorted list keeps it sorted. */
  lemma InsertDescSorted(s: seq<Entry>, e: Entry)
    requires SortedDesc(s)
    ensures SortedDesc(InsertDesc(s, e))
  {
    var k := InsertPos(s, e);
    var r := InsertDesc(s, e);
    forall i, j | 0 <= i < j < |r| ensures r[i].score >= r[j].score {
      if j == k {
      } else if i == k {
        assert r[j] == s[j - 1];
      } else if j < k {
      } else if i < k {
        assert r[j] == s[j - 1];
      } else {
        assert r[i] == s[i - 1] && r[j] == s[j - 1];
      }
    }
  }

  /** Inserting adds exactly the new entry. */
  lemma InsertDescPermutes(s: seq<Entry>, e: Entry)
    ensures multiset(InsertDesc(s, e)) == multiset(s) + multiset{e}
  {
    var k := InsertPos(s, e);
    assert s == s[..k] + s[k..];
  }

  lemma WithScoreSingle(e: Entry, v: int)
    ensures WithScore([e], v) == if v == e.score then [e] else []
  {
    assert [e][1..] == [];
  }

  /** In a sorted list the new entry goes after every entry with its score; other scores are untouched. */
  lemma InsertDescStable(s: seq<Entry>, e: Entry, v: int)
    requires SortedDesc(s)
    ensures WithScore(InsertDesc(s, e), v) == WithScore(s, v) + (if v == e.score then [e] else [])
  {
    var k := InsertPos(s, e);
    var before, after := s[..k], s[k..];
    assert s == before + after;
    assert InsertDesc(s, e) == (before + [e]) + after;
    WithScoreAppend(before + [e], after, v);
    WithScoreAppend(before, [e], v);
    WithScoreAppend(before, after, v);
    WithScoreSingle(e, v);
    if v == e.score {
      forall i | 0 <= i < |after| ensures after[i].score != v {
        assert after[i] == s[k + i];
      }
      WithScoreNone(after, v);
    }
  }

  /**
   * One step of the sort: inserting the last entry into a sorted, stable
   * permutation of the others gives a sorted, stable permutation of the whole.
   */
  lemma InsertLastKeepsSortSpec(init: seq<Entry>, last: Entry, sortedInit: seq<Entry>)
    requires |sortedInit| == |init| && SortedDesc(sortedInit)
    requires multiset(sortedInit) == multiset(init)
    requires forall v :: WithScore(sortedInit, v) == WithScore(init, v)
    ensures |InsertDesc(sortedInit, last)| == |init + [last]|
    ensures SortedDesc(InsertDesc(sortedInit, last))
    ensures multiset(InsertDesc(sortedInit, last)) == multiset(init + [last])
    ensures forall v :: WithScore(InsertDesc(sortedInit, last), v) == WithScore(init + [last], v)
  {
    InsertDescSorted(sortedInit, last);
    InsertDescPermutes(sortedInit, last);
    forall v ensures WithScore(InsertDesc(sortedInit, last), v) == WithScore(init + [last], v) {
      InsertDescStable(sortedInit, last, v);
      WithScoreAppend(init, [last], v);
      WithScoreSingle(last, v);
    }
  }

  /**
   * Python's `list.sort(key=score, reverse=True)`, written as insertion of
   * each entry in input order. The result is sorted best first, a
   * permutation, and stable: for every score the entries with that score
   * keep their input order.
   */
  function StableSortDesc(s: seq<Entry>): (r: seq<Entry>)
    ensures |r| == |s|
    ensures SortedDesc(r)
    ensures multiset(r) == multiset(s)
    ensures forall v :: WithScore(r, v) == WithScore(s, v)
    decreases |s|
  {
    if s == [] then []
    else
      var init, last := s[..|s| - 1], s[|s| - 1];
      assert s == init + [last];
      var sortedInit := StableSortDesc(init);
      InsertLastKeepsSortSpec(init, last, sortedInit);
      InsertDesc(sortedInit, last)
  }

  /** An already sorted list is left as it is. */
  lemma {:induction false} SortedIsFixpoint(s: seq<Entry>)
    requires SortedDesc(s)
    ensures StableSortDesc(s) == s
  {
    if s != [] {
      var init, last := s[..|s| - 1], s[|s| - 1];
      assert s == init + [last];
      SortedIsFixpoint(init);
      var k := InsertPos(init, last);
      assert forall j | 0 <= j < |init| :: init[j].score >= last.score by {
        forall j | 0 <= j < |init| ensures init[j].score >= last.score {
          assert init[j] == s[j];
        }
      }
      assert k == |init|;
      assert init[..k] == init && init[k..] == [];
      assert s == init + [last];
    }
  }

  /** For a sorted list, sorting after appending is a single insertion. */
  lemma AppendThenSortIsInsert(l: seq<Entry>, e: Entry)
    requires SortedDesc(l)
    ensures StableSortDesc(l + [e]) == InsertDesc(l, e)
  {
    assert (l + [e])[..|l + [e]| - 1] == l;
    SortedIsFixpoint(l);
  }

  function Min(a: int, b: int): int {
    if a < b then a else b
  }

  /** `add_score`'s list update: append, sort, keep the first ten. */
  function AddEntry(l: seq<Entry>, e: Entry): (r: seq<Entry>)
    ensures |r| == Min(MaxEntries, |l| + 1)
    ensures SortedDesc(r)
  {
    var sorted := StableSortDesc(l + [e]);
    sorted[..Min(MaxEntries, |sorted|)]
  }

  /**
   * Every kept entry is an old entry or the new one, and for each score the
   * kept entries with that score are the first of them in input order.
   */
  lemma AddEntryKeepsOrder(l: seq<Entry>, e: Entry, v: int)
    ensures forall i | 0 <= i < |AddEntry(l, e)| :: AddEntry(l, e)[i] in multiset(l) + multiset{e}
    ensures WithScore(AddEntry(l, e), v) <= WithScore(l + [e], v)
  {
    var sorted := StableSortDesc(l + [e]);
    var r := AddEntry(l, e);
    assert sorted == r + sorted[|r|..];
    forall i | 0 <= i < |r| ensures r[i] in multiset(l) + multiset{e} {
      assert r[i] in multiset(sorted);
    }
    WithScoreAppend(r, sorted[|r|..], v);
  }

  /** The new entry comes after every existing entry with the same score. */
  lemma NewEntryAfterEqualScores(l: seq<Entry>, e: Entry)
    ensures WithScore(StableSortDesc(l + [e]), e.score) == WithScore(l, e.score) + [e]
  {
    WithScoreAppend(l, [e], e.score);
  }

  /** `is_high_score` on one list: room left, or beating the last entry. */
  predicate IsHighScoreList(l: seq<Entry>, score: int) {
    |l| < MaxEntries || score > l[|l| - 1].score
  }

  /**
   * On a sorted list of at most ten entries, a score is a high score exactly
   * when adding it keeps the new entry, and then the entry sits at its insertion point.
   */
  lemma HighScoreIffKept(l: seq<Entry>, e: Entry)
    requires SortedDesc(l) && |l| <= MaxEntries
    ensures IsHighScoreList(l, e.score) <==> InsertPos(l, e) < MaxEntries
    ensures InsertPos(l, e) < MaxEntries ==> AddEntry(l, e)[InsertPos(l, e)] == e
  {
    var k := InsertPos(l, e);
    AppendThenSortIsInsert(l, e);
    if |l| == MaxEntries {
      if e.score > l[|l| - 1].score {
        assert k <= |l| - 1;
      } else {
        assert forall j | 0 <= j < |l| :: l[j].score >= e.score;
        assert k == |l|;
      }
    }
    if k < MaxEntries {
      assert InsertDesc(l, e)[k] == e;
    }
  }

  predicate Matches(e: Entry, score: int, name: string) {
    e.score == score && e.name == name
  }

  /** The 1-based position of the first entry with this score and name, or none. */
  predicate IsRank(l: seq<Entry>, score: int, name: string, rank: Option<nat>) {
    match rank
    case None => forall i | 0 <= i < |l| :: !Matches(l[i], score, name)
    case Some(r) =>
      && 1 <= r <= |l| && Matches(l[r - 1], score, name)
      && forall i | 0 <= i < r - 1 :: !Matches(l[i], score, name)
  }

  /** The rank scan of `add_score`: the first matching entry, counted from one. */
  method FindRank(l: seq<Entry>, score: int, name: string) returns (rank: Option<nat>)
    ensures IsRank(l, score, name, rank)
  {
    var i := 0;
    while i < |l|
      invariant 0 <= i <= |l|
      invariant forall j | 0 <= j < i :: !Matches(l[j], score, name)
    {
      if l[i].score == score && l[i].name == name {
        return Some(i + 1);
      }
      i := i + 1;
    }
    return None;
  }

  /**
   * When the new entry is kept, a rank is reported, at or before the new
   * entry's place (an older entry with the same name and score comes first).
   */
  lemma RankOfKeptEntry(l: seq<Entry>, e: Entry, rank: Option<nat>)
    requires SortedDesc(l) && |l| <= MaxEntries && IsHighScoreList(l, e.score)
    requires IsRank(AddEntry(l, e), e.score, e.name, rank)
    ensures rank.Some? && 1 <= rank.value <= InsertPos(l, e) + 1 <= MaxEntries
  {
    HighScoreIffKept(l, e);
    var k := InsertPos(l, e);
    assert Matches(AddEntry(l, e)[k], e.score, e.name);
  }

  /** Python's `s[:limit]`, where a negative limit counts from the end. */
  function SlicePrefix(s: seq<Entry>, limit: int): (r: seq<Entry>)
    ensures |r| <= |s| && r == s[..|r|]
    ensures limit >= 0 ==> |r| == Min(limit, |s|)
    ensures limit < 0 ==> |r| == if |s| + limit > 0 then |s| + limit else 0
  {
    if limit >= 0 then s[..Min(limit, |s|)]
    else if |s| + limit > 0 then s[..|s| + limit]
    else []
  }

  class LeaderboardManager {
    var leaderboard: map<string, seq<Entry>>

    /** Every list is sorted best first and holds at most ten entries. */
    ghost predicate Valid()
      reads this
    {
      forall d | d in leaderboard :: SortedDesc(leaderboard[d]) && |leaderboard[d]| <= MaxEntries
    }

    /** Starts from the default table, as when no leaderboard file exists. */
    constructor ()
      ensures leaderboard == CreateDefaultLeaderboard()
      ensures Valid()
    {
      leaderboard := CreateDefaultLeaderboard();
    }

    /** Adds an entry to one difficulty's list and reports its rank; other lists are untouched. */
    method AddScore(difficulty: string, score: int, playerName: string := "Player", date: string)
      returns (result: Result<Option<nat>, LeaderboardError>)
      modifies this
      ensures old(Valid()) ==> Valid()
      ensures difficulty !in old(leaderboard) ==>
                result == Failure(KeyError(difficulty)) && leaderboard == old(leaderboard)
      ensures difficulty in old(leaderboard) ==>
                && leaderboard == old(leaderboard)[difficulty := AddEntry(old(leaderboard)[difficulty], Entry(playerName, score, date))]
                && result.Success? && IsRank(leaderboard[difficulty], score, playerName, result.value)
    {
      if difficulty !in leaderboard {
        return Failure(KeyError(difficulty));
      }
      var entry := Entry(playerName, score, date);
      var scores := leaderboard[difficulty] + [entry];
      scores := StableSortDesc(scores);
      leaderboard := leaderboard[difficulty := scores];
      leaderboard := leaderboard[difficulty := leaderboard[difficulty][..Min(MaxEntries, |leaderboard[difficulty]|)]];
      assert leaderboard[difficulty] == AddEntry(old(leaderboard)[difficulty], entry);
      var rank := FindRank(leaderboard[difficulty], score, playerName);
      return Success(rank);
    }

    /** `get_top_scores`: a prefix of the difficulty's list, empty for an unknown difficulty. */
    function GetTopScores(difficulty: string, limit: int := MaxEntries): (top: seq<Entry>)
      reads this
      ensures top == SlicePrefix(Lookup(leaderboard, difficulty), limit)
      ensures limit >= 0 ==> |top| <= limit
      ensures difficulty !in leaderboard ==> top == []
    {
      SlicePrefix(Lookup(leaderboard, difficulty), limit)
    }

    predicate IsHighScore(difficulty: string, score: int)
      reads this
      ensures IsHighScore(difficulty, score) == IsHighScoreList(Lookup(leaderboard, difficulty), score)
      ensures difficulty !in leaderboard ==> IsHighScore(difficulty, score)
    {
      var scores := Lookup(leaderboard, difficulty);
      if |scores| < MaxEntries then true else score > scores[|scores| - 1].score
    }
  }
}
