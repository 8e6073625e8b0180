/** The leaderboard: the fetched entries kept in descending order of total
    score, the current user's entry looked up in that order, and the per-category
    views, ranks, badges and display values. The sorts are the stable
    descending sorts of the browser's `Array.prototype.sort`, specified here by
    an insertion sort whose result is proved sorted, a permutation, stable, and
    the only sequence with those three properties. */
module Ranking {
  import opened Types

  /** The tab the leaderboard is ranked by. */
  datatype Category = Overall | EasyMode | MediumMode | HardMode

  /** The key a category ranks by: total score overall, win counts per mode. */
  function Score(e: LeaderboardEntry, c: Category): int
  {
    match c
    case Overall => e.totalScore
    case EasyMode => e.easyWins
    case MediumMode => e.mediumWins
    case HardMode => e.hardWins
  }

  /** Non-increasing by the category's key. */
  predicate SortedBy(s: seq<LeaderboardEntry>, c: Category)
  {
    forall i, j :: 0 <= i < j < |s| ==> Score(s[i], c) >= Score(s[j], c)
  }

  /** The entries of `s` whose key is `k`, in their order in `s`. A sort is
      stable exactly when it keeps each of these subsequences. */
  function WithScore(s: seq<LeaderboardEntry>, c: Category, k: int): seq<LeaderboardEntry>
  {
    if s == [] then []
    else (if Score(s[0], c) == k then [s[0]] else []) + WithScore(s[1..], c, k)
  }

  lemma {:induction false} WithScoreMembers(s: seq<LeaderboardEntry>, c: Category, k: int)
    ensures forall x :: x in WithScore(s, c, k) ==> x in s && Score(x, c) == k
  {
    if s != [] {
      WithScoreMembers(s[1..], c, k);
    }
  }

  lemma {:induction false} WithScoreNonEmpty(s: seq<LeaderboardEntry>, c: Category, i: nat)
    requires i < |s|
    ensures WithScore(s, c, Score(s[i], c)) != []
  {
    if i > 0 {
      WithScoreNonEmpty(s[1..], c, i - 1);
    }
  }

  /** Places `x` in front of the first entry whose key is not above its own. */
  function Insert(x: LeaderboardEntry, s: seq<LeaderboardEntry>, c: Category): seq<LeaderboardEntry>
  {
    if s == [] || Score(s[0], c) <= Score(x, c) then [x] + s
    else [s[0]] + Insert(x, s[1..], c)
  }

  /** Inserting adds exactly `x`. */
  lemma {:induction false} InsertPermutes(x: LeaderboardEntry, s: seq<LeaderboardEntry>, c: Category)
    ensures multiset(Insert(x, s, c)) == multiset(s) + multiset{x}
  {
    if s != [] && Score(s[0], c) > Score(x, c) {
      assert s == [s[0]] + s[1..];
      InsertPermutes(x, s[1..], c);
    }
  }

  /** Inserting puts `x` in front of the entries that share its key and keeps
      every key's entries in order. */
  lemma {:induction false} InsertKeepsKeyOrder(x: LeaderboardEntry, s: seq<LeaderboardEntry>, c: Category, k: int)
    ensures WithScore(Insert(x, s, c), c, k) == (if Score(x, c) == k then [x] else []) + WithScore(s, c, k)
  {
    var r := Insert(x, s, c);
    if s == [] || Score(s[0], c) <= Score(x, c) {
      assert r[1..] == s;
    } else {
      var rest := Insert(x, s[1..], c);
      InsertKeepsKeyOrder(x, s[1..], c, k);
      assert r[1..] == rest;
    }
  }

  /** Inserting an entry no higher than a bound into entries no higher than it
      keeps every entry no higher than it. */
  lemma {:induction false} InsertBounded(x: LeaderboardEntry, s: seq<LeaderboardEntry>, c: Category, bound: int)
    requires Score(x, c) <= bound
    requires forall i :: 0 <= i < |s| ==> Score(s[i], c) <= bound
    ensures forall i :: 0 <= i < |Insert(x, s, c)| ==> Score(Insert(x, s, c)[i], c) <= bound
  {
    if s != [] && Score(s[0], c) > Score(x, c) {
      InsertBounded(x, s[1..], c, bound);
    }
  }

  /** Inserting into a sorted sequence keeps it sorted. */
  lemma {:induction false} InsertSorted(x: LeaderboardEntry, s: seq<LeaderboardEntry>, c: Category)
    requires SortedBy(s, c)
    ensures SortedBy(Insert(x, s, c), c)
  {
    var r := Insert(x, s, c);
    if s == [] || Score(s[0], c) <= Score(x, c) {
      assert r[1..] == s;
    } else {
      var rest := Insert(x, s[1..], c);
      InsertSorted(x, s[1..], c);
      InsertBounded(x, s[1..], c, Score(s[0], c));
      assert r == [s[0]] + rest;
    }
  }

  /** The stable descending sort by the category's key. */
  function SortDescending(s: seq<LeaderboardEntry>, c: Category): (r: seq<LeaderboardEntry>)
    ensures SortedBy(r, c)
    ensures multiset(r) == multiset(s)
    ensures forall k :: WithScore(r, c, k) == WithScore(s, c, k)
  {
    if s == [] then []
    else
      var sorted := SortDescending(s[1..], c);
      assert s == [s[0]] + s[1..];
      InsertSorted(s[0], sorted, c);
      InsertPermutes(s[0], sorted, c);
      assert forall k :: WithScore(Insert(s[0], sorted, c), c, k) == WithScore(s, c, k) by {
        forall k {
          InsertKeepsKeyOrder(s[0], sorted, c, k);
        }
      }
      Insert(s[0], sorted, c)
  }

  /** A sorted sequence is fixed by the order of each key's entries: two
      sorted sequences that agree on every `WithScore` are equal. */
  lemma {:induction false} SortedIsDeterminedByKeys(r1: seq<LeaderboardEntry>, r2: seq<LeaderboardEntry>, c: Category)
    requires SortedBy(r1, c) && SortedBy(r2, c)
    requires forall k :: WithScore(r1, c, k) == WithScore(r2, c, k)
    ensures r1 == r2
    decreases |r1|
  {
    if r1 == [] && r2 == [] {
    } else if r1 == [] {
      WithScoreNonEmpty(r2, c, 0);
    } else if r2 == [] {
      WithScoreNonEmpty(r1, c, 0);
    } else {
      var a, b := Score(r1[0], c), Score(r2[0], c);
      // r2 holds an entry of key a, so its first key b is at least a
      WithScoreNonEmpty(r1, c, 0);
      WithScoreMembers(r2, c, a);
      assert WithScore(r2, c, a)[0] in r2;
      // and symmetrically a is at least b
      WithScoreNonEmpty(r2, c, 0);
      WithScoreMembers(r1, c, b);
      assert WithScore(r1, c, b)[0] in r1;
      assert a == b;
      assert WithScore(r1, c, a) == [r1[0]] + WithScore(r1[1..], c, a);
      assert WithScore(r2, c, a) == [r2[0]] + WithScore(r2[1..], c, a);
      assert r1[0] == WithScore(r1, c, a)[0] == r2[0];
      forall k
        ensures WithScore(r1[1..], c, k) == WithScore(r2[1..], c, k)
      {
        var head := if a == k then [r1[0]] else [];
        assert WithScore(r1, c, k) == head + WithScore(r1[1..], c, k);
        assert WithScore(r2, c, k) == head + WithScore(r2[1..], c, k);
        assert (head + WithScore(r1[1..], c, k))[|head|..] == WithScore(r1[1..], c, k);
        assert (head + WithScore(r2[1..], c, k))[|head|..] == WithScore(r2[1..], c, k);
      }
      SortedIsDeterminedByKeys(r1[1..], r2[1..], c);
      assert r1 == [r1[0]] + r1[1..];
      assert r2 == [r2[0]] + r2[1..];
    }
  }

  /** Any stable descending sort of `s` produces exactly `SortDescending(s, c)`,
      whatever algorithm it uses. */
  lemma StableSortIsSortDescending(s: seq<LeaderboardEntry>, r: seq<LeaderboardEntry>, c: Category)
    requires SortedBy(r, c)
    requires forall k :: WithScore(r, c, k) == WithScore(s, c, k)
    ensures r == SortDescending(s, c)
  {
    SortedIsDeterminedByKeys(r, SortDescending(s, c), c);
  }

  /** Sorting an already sorted sequence changes nothing. */
  lemma SortingSortedIsIdentity(s: seq<LeaderboardEntry>, c: Category)
    requires SortedBy(s, c)
    ensures SortDescending(s, c) == s
  {
    StableSortIsSortDescending(s, s, c);
  }

  /** The rows a category tab shows: the stored order itself overall, a sorted
      copy for each mode. */
  function SortedView(data: seq<LeaderboardEntry>, c: Category): (r: seq<LeaderboardEntry>)
    ensures c == Overall ==> r == data
    ensures c != Overall ==> SortedBy(r, c) && multiset(r) == multiset(data)
    ensures c != Overall ==> forall k :: WithScore(r, c, k) == WithScore(data, c, k)
  {
    if c == Overall then data else SortDescending(data, c)
  }

  /** Stored data is already sorted by total score, so the overall tab shows it
      ranked by score like the other tabs. */
  lemma SortedViewIsSorted(data: seq<LeaderboardEntry>, c: Category)
    requires SortedBy(data, Overall)
    ensures SortedBy(SortedView(data, c), c)
    ensures SortedView(data, c) == SortDescending(data, c)
  {
    if c == Overall {
      SortingSortedIsIdentity(data, c);
    }
  }

  /** The first entry with the given username, if any. */
  function FindByUsername(s: seq<LeaderboardEntry>, name: string): (r: Option<LeaderboardEntry>)
    ensures r.None? <==> forall i :: 0 <= i < |s| ==> s[i].username != name
    ensures r.Some? ==> exists i :: 0 <= i < |s| && s[i] == r.value && r.value.username == name
                                 && forall j :: 0 <= j < i ==> s[j].username != name
  {
    if s == [] then None
    else if s[0].username == name then Some(s[0])
    else
      var r := FindByUsername(s[1..], name);
      assert forall i :: 0 < i < |s| ==> s[i] == s[1..][i - 1];
      r
  }

  datatype BadgeVariant = DefaultBadge | SecondaryBadge | OutlineBadge

  /** Gold for the first place, silver for the second, outlined for the rest. */
  function RankBadgeVariant(rank: int): (b: BadgeVariant)
    ensures b == DefaultBadge <==> rank == 1
    ensures b == SecondaryBadge <==> rank == 2
    ensures b == OutlineBadge <==> rank != 1 && rank != 2
  {
    if rank == 1 then DefaultBadge
    else if rank == 2 then SecondaryBadge
    else OutlineBadge
  }

  datatype DisplayUnit = Wins | Points

  /** The figure shown at the right of a row, e.g. "15 wins" or "1520 pts". */
  datatype DisplayValue = DisplayValue(amount: int, unit: DisplayUnit)

  /** The figure shown is the key the tab ranks by, in points overall and in
      wins per mode. */
  function GetDisplayValue(e: LeaderboardEntry, c: Category): (d: DisplayValue)
    ensures d.amount == Score(e, c)
    ensures d.unit == Points <==> c == Overall
  {
    match c
    case EasyMode => DisplayValue(e.easyWins, Wins)
    case MediumMode => DisplayValue(e.mediumWins, Wins)
    case HardMode => DisplayValue(e.hardWins, Wins)
    case Overall => DisplayValue(e.totalScore, Points)
  }

  /** One rendered row of the ranking. */
  datatype Row = Row(rank: int, entry: LeaderboardEntry, badge: BadgeVariant, display: DisplayValue, isCurrentUser: bool)

  /** The rows of a tab, ranked from 1 in order. */
  function Rows(s: seq<LeaderboardEntry>, c: Category, username: string): (rows: seq<Row>)
    ensures |rows| == |s|
    ensures forall i :: 0 <= i < |s| ==> rows[i].rank == i + 1 && rows[i].entry == s[i]
    ensures forall i :: 0 <= i < |s| ==> rows[i].badge == RankBadgeVariant(rows[i].rank)
    ensures forall i :: 0 <= i < |s| ==> rows[i].display == GetDisplayValue(s[i], c)
    ensures forall i :: 0 <= i < |s| ==> (rows[i].isCurrentUser <==> s[i].username == username)
  {
    seq(|s|, i requires 0 <= i < |s| =>
      Row(i + 1, s[i], RankBadgeVariant(i + 1), GetDisplayValue(s[i], c), s[i].username == username))
  }

  /** On a tab's rows the shown figures never increase down the ranking, only
      the first row carries the gold badge and only the second the silver one. */
  lemma RowsRanked(data: seq<LeaderboardEntry>, c: Category, username: string)
    requires SortedBy(data, Overall)
    ensures var rows := Rows(SortedView(data, c), c, username);
      && (forall i, j :: 0 <= i < j < |rows| ==> rows[i].display.amount >= rows[j].display.amount)
      && (forall i :: 0 <= i < |rows| ==> (rows[i].badge == DefaultBadge <==> i == 0))
      && (forall i :: 0 <= i < |rows| ==> (rows[i].badge == SecondaryBadge <==> i == 1))
  {
    SortedViewIsSorted(data, c);
  }

  class Leaderboard {
    const user: User
    var leaderboardData: seq<LeaderboardEntry>
    var userStats: Option<LeaderboardEntry>
    var isLoading: bool
    var selectedCategory: Category

    /** The stored entries are in descending order of total score, and the
        user's statistics are the first of them with the user's name. */
    ghost predicate Valid()
      reads this
    {
      && SortedBy(leaderboardData, Overall)
      && userStats == FindByUsername(leaderboardData, user.username)
    }

    constructor (user: User)
      ensures this.user == user
      ensures leaderboardData == [] && userStats == None && isLoading && selectedCategory == Overall
      ensures Valid()
    {
      this.user := user;
      leaderboardData := [];
      userStats := None;
      isLoading := true;
      selectedCategory := Overall;
    }

    /** Stores a fetched leaderboard sorted by total score and looks up the
        user's entry in it. `response` is the entries the request produced, or
        `None` when reading it failed, which leaves the old data in place. */
    method FetchLeaderboardData(response: Option<seq<LeaderboardEntry>>)
      requires Valid()
      modifies this`leaderboardData, this`userStats, this`isLoading
      ensures Valid() && !isLoading
      ensures response.Some? ==> leaderboardData == SortDescending(response.value, Overall)
      ensures response.Some? ==> multiset(leaderboardData) == multiset(response.value)
      ensures response.None? ==> leaderboardData == old(leaderboardData) && userStats == old(userStats)
    {
      isLoading := true;
      if response.Some? {
        var sortedData := SortDescending(response.value, Overall);
        leaderboardData := sortedData;
        userStats := FindByUsername(sortedData, user.username);
      }
      isLoading := false;
    }

    method SelectCategory(c: Category)
      modifies this`selectedCategory
      ensures selectedCategory == c
    {
      selectedCategory := c;
    }

    /** The entries of the selected tab; the stored data is never reordered. */
    function GetSortedData(): (r: seq<LeaderboardEntry>)
      reads this
      ensures selectedCategory == Overall ==> r == leaderboardData
      ensures multiset(r) == multiset(leaderboardData)
      ensures SortedBy(leaderboardData, Overall) ==> SortedBy(r, selectedCategory)
    {
      if SortedBy(leaderboardData, Overall) then
        SortedViewIsSorted(leaderboardData, selectedCategory);
        SortedView(leaderboardData, selectedCategory)
      else
        SortedView(leaderboardData, selectedCategory)
    }
  }
}
