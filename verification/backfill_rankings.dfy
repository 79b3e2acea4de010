/** The offline backfill script: for every user and every episode (in
    ascending number order) that has no rankings yet, create one ranking per
    star assigned to the episode, ranked 1..n in ascending star-id order. It
    only ever inserts rows. */
module BackfillRankings {
  import opened Common
  import opened Models

  /** A row of the episode-star join table. The script matches `episodeId`
      against the episode NUMBER. */
  datatype EpisodeStar = EpisodeStar(episodeId: int, starId: StarId)

  /** The tables the script reads: user ids, episode numbers, join rows and
      the rankings table it extends. */
  datatype Tables = Tables(users: seq<UserId>, episodes: seq<int>, episodeStars: seq<EpisodeStar>, rankings: seq<Ranking>)

  predicate StarIdLe(a: StarId, b: StarId) {
    a <= b
  }

  function AssignedTo(number: int): EpisodeStar -> bool {
    (row: EpisodeStar) => row.episodeId == number
  }

  /** Star ids assigned to episode `number`, in ascending order. */
  function EpisodeStarIds(episodeStars: seq<EpisodeStar>, number: int): (r: seq<StarId>)
    ensures Sorted(r, StarIdLe)
    ensures forall id :: id in r <==> EpisodeStar(number, id) in episodeStars
    ensures |r| == |Filter(episodeStars, AssignedTo(number))|
  {
    var rows := Filter(episodeStars, AssignedTo(number));
    var ids: seq<StarId> := seq(|rows|, k requires 0 <= k < |rows| => rows[k].starId);
    assert forall id :: id in ids <==> EpisodeStar(number, id) in rows by {
      forall id | EpisodeStar(number, id) in rows ensures id in ids {
        var k :| 0 <= k < |rows| && rows[k] == EpisodeStar(number, id);
        assert ids[k] == id;
      }
    }
    Sort(ids, StarIdLe)
  }

  /** The rows of one (user, episode number) pair: the script's
      `findMany({ where: { userId, episode } })`. */
  function PairRows(rankings: seq<Ranking>, userId: UserId, number: int): seq<Ranking> {
    Filter(rankings, OfUserEpisode(userId, number))
  }

  predicate HasRankings(rankings: seq<Ranking>, userId: UserId, number: int) {
    |PairRows(rankings, userId, number)| > 0
  }

  /** One iteration of the inner loop. */
  function Step(rankings: seq<Ranking>, userId: UserId, number: int, episodeStars: seq<EpisodeStar>): (r: seq<Ranking>)
    ensures rankings <= r
    ensures forall i :: |rankings| <= i < |r| ==> r[i].userId == userId && r[i].episode == number
  {
    if HasRankings(rankings, userId, number) then rankings
    else
      var starIds := EpisodeStarIds(episodeStars, number);
      if |starIds| == 0 then rankings
      else rankings + RankStars(userId, starIds, number)
  }

  /** The inner loop: one user across the episodes in order. */
  function BackfillUser(rankings: seq<Ranking>, userId: UserId, numbers: seq<int>, episodeStars: seq<EpisodeStar>): (r: seq<Ranking>)
    ensures rankings <= r
    ensures forall i :: |rankings| <= i < |r| ==> r[i].userId == userId && r[i].episode in numbers
    decreases |numbers|
  {
    if |numbers| == 0 then rankings
    else
      var next := Step(rankings, userId, numbers[0], episodeStars);
      assert forall n :: n in numbers[1..] ==> n in numbers;
      BackfillUser(next, userId, numbers[1..], episodeStars)
  }

  /** The outer loop: every user in turn. */
  function BackfillAll(rankings: seq<Ranking>, users: seq<UserId>, numbers: seq<int>, episodeStars: seq<EpisodeStar>): (r: seq<Ranking>)
    ensures rankings <= r
    ensures forall i :: |rankings| <= i < |r| ==> r[i].userId in users && r[i].episode in numbers
    decreases |users|
  {
    if |users| == 0 then rankings
    else
      var next := BackfillUser(rankings, users[0], numbers, episodeStars);
      assert forall u :: u in users[1..] ==> u in users;
      BackfillAll(next, users[1..], numbers, episodeStars)
  }

  /** The whole script: episodes are visited in ascending number order; the
      result is the rankings table afterwards. Existing rows are kept as they
      are, and every new row belongs to a listed user and episode. */
  function Backfill(t: Tables): (r: seq<Ranking>)
    ensures t.rankings <= r
    ensures forall i :: |t.rankings| <= i < |r| ==> r[i].userId in t.users && r[i].episode in t.episodes
  {
    BackfillAll(t.rankings, t.users, Sort(t.episodes, IntLe), t.episodeStars)
  }

  /** What one pair's rows are after a step. */
  lemma StepPair(rankings: seq<Ranking>, u: UserId, n: int, episodeStars: seq<EpisodeStar>, userId: UserId, number: int)
    ensures PairRows(Step(rankings, u, n, episodeStars), userId, number) ==
      if userId == u && number == n && !HasRankings(rankings, userId, number)
      then RankStars(userId, EpisodeStarIds(episodeStars, number), number)
      else PairRows(rankings, userId, number)
  {
    var p := OfUserEpisode(userId, number);
    if !HasRankings(rankings, u, n) && |EpisodeStarIds(episodeStars, n)| > 0 {
      var added := RankStars(u, EpisodeStarIds(episodeStars, n), n);
      FilterConcat(rankings, added, p);
      if userId == u && number == n {
        FilterKeepsAll(added, p);
      } else {
        FilterDropsAll(added, p);
      }
    }
  }

  lemma {:induction false} UserPairs(rankings: seq<Ranking>, u: UserId, numbers: seq<int>, episodeStars: seq<EpisodeStar>,
                                     userId: UserId, number: int)
    ensures PairRows(BackfillUser(rankings, u, numbers, episodeStars), userId, number) ==
      if userId == u && number in numbers && !HasRankings(rankings, userId, number)
      then RankStars(userId, EpisodeStarIds(episodeStars, number), number)
      else PairRows(rankings, userId, number)
    decreases |numbers|
  {
    if |numbers| > 0 {
      var next := Step(rankings, u, numbers[0], episodeStars);
      StepPair(rankings, u, numbers[0], episodeStars, userId, number);
      UserPairs(next, u, numbers[1..], episodeStars, userId, number);
      assert number in numbers <==> number == numbers[0] || number in numbers[1..];
    }
  }

  /** The effect of the whole run on one (user, episode number) pair: a
      listed pair that had no rows gets exactly the generated rankings (none
      when no star is assigned); every other pair keeps its rows unchanged. */
  lemma {:induction false} AllPairs(rankings: seq<Ranking>, users: seq<UserId>, numbers: seq<int>, episodeStars: seq<EpisodeStar>,
                                    userId: UserId, number: int)
    ensures PairRows(BackfillAll(rankings, users, numbers, episodeStars), userId, number) ==
      if userId in users && number in numbers && !HasRankings(rankings, userId, number)
      then RankStars(userId, EpisodeStarIds(episodeStars, number), number)
      else PairRows(rankings, userId, number)
    decreases |users|
  {
    if |users| > 0 {
      var next := BackfillUser(rankings, users[0], numbers, episodeStars);
      UserPairs(rankings, users[0], numbers, episodeStars, userId, number);
      AllPairs(next, users[1..], numbers, episodeStars, userId, number);
      assert userId in users <==> userId == users[0] || userId in users[1..];
    }
  }

  /** A pair needs no work when it already has rows or has no stars. */
  predicate Done(rankings: seq<Ranking>, episodeStars: seq<EpisodeStar>, userId: UserId, number: int) {
    HasRankings(rankings, userId, number) || |EpisodeStarIds(episodeStars, number)| == 0
  }

  lemma {:induction false} UserNoOp(rankings: seq<Ranking>, u: UserId, numbers: seq<int>, episodeStars: seq<EpisodeStar>)
    requires forall n :: n in numbers ==> Done(rankings, episodeStars, u, n)
    ensures BackfillUser(rankings, u, numbers, episodeStars) == rankings
    decreases |numbers|
  {
    if |numbers| > 0 {
      assert Done(rankings, episodeStars, u, numbers[0]);
      UserNoOp(rankings, u, numbers[1..], episodeStars);
    }
  }

  lemma {:induction false} AllNoOp(rankings: seq<Ranking>, users: seq<UserId>, numbers: seq<int>, episodeStars: seq<EpisodeStar>)
    requires forall u, n :: u in users && n in numbers ==> Done(rankings, episodeStars, u, n)
    ensures BackfillAll(rankings, users, numbers, episodeStars) == rankings
    decreases |users|
  {
    if |users| > 0 {
      UserNoOp(rankings, users[0], numbers, episodeStars);
      AllNoOp(rankings, users[1..], numbers, episodeStars);
    }
  }

  /** After a run every listed pair is done. */
  lemma AllDone(rankings: seq<Ranking>, users: seq<UserId>, numbers: seq<int>, episodeStars: seq<EpisodeStar>)
    ensures forall u, n :: u in users && n in numbers ==>
      Done(BackfillAll(rankings, users, numbers, episodeStars), episodeStars, u, n)
  {
    forall u, n | u in users && n in numbers
      ensures Done(BackfillAll(rankings, users, numbers, episodeStars), episodeStars, u, n)
    {
      AllPairs(rankings, users, numbers, episodeStars, u, n);
    }
  }

  /** Running the script a second time creates nothing new. */
  lemma BackfillIdempotent(t: Tables)
    ensures Backfill(t.(rankings := Backfill(t))) == Backfill(t)
  {
    var numbers := Sort(t.episodes, IntLe);
    AllDone(t.rankings, t.users, numbers, t.episodeStars);
    AllNoOp(Backfill(t), t.users, numbers, t.episodeStars);
  }

  /** A pair that already had rows is left exactly as it was. */
  lemma BackfillSkipsRankedPairs(t: Tables, userId: UserId, number: int)
    requires HasRankings(t.rankings, userId, number)
    ensures PairRows(Backfill(t), userId, number) == PairRows(t.rankings, userId, number)
  {
    AllPairs(t.rankings, t.users, Sort(t.episodes, IntLe), t.episodeStars, userId, number);
  }

  /** An episode with no assigned stars gets no rankings for anyone. */
  lemma BackfillNoStarsNoRows(t: Tables, userId: UserId, number: int)
    requires |Filter(t.episodeStars, AssignedTo(number))| == 0
    requires !HasRankings(t.rankings, userId, number)
    ensures PairRows(Backfill(t), userId, number) == []
  {
    AllPairs(t.rankings, t.users, Sort(t.episodes, IntLe), t.episodeStars, userId, number);
  }

  /** A processed pair gets exactly the 1..n ranking of the assigned star
      ids in ascending order: one ranking per join row, every assigned star
      ranked, each row carrying the user's id and the episode number, and a
      smaller star id always having a smaller rank. */
  lemma BackfillProcessedPair(t: Tables, userId: UserId, number: int)
    requires userId in t.users && number in t.episodes
    requires !HasRankings(t.rankings, userId, number)
    ensures var rows := PairRows(Backfill(t), userId, number);
      && |rows| == |Filter(t.episodeStars, AssignedTo(number))|
      && Ranks(rows) == Range(|rows|)
      && (forall x :: x in rows ==> x.userId == userId && x.episode == number)
      && (forall x :: x in rows ==> EpisodeStar(number, x.starId) in t.episodeStars)
      && (forall x, y :: x in rows && y in rows && x.starId < y.starId ==> x.rank < y.rank)
      && rows == RankStars(userId, EpisodeStarIds(t.episodeStars, number), number)
      && (forall id :: EpisodeStar(number, id) in t.episodeStars ==> exists x :: x in rows && x.starId == id)
  {
    var starIds := EpisodeStarIds(t.episodeStars, number);
    var rows := RankStars(userId, starIds, number);
    forall id | EpisodeStar(number, id) in t.episodeStars
      ensures exists x :: x in rows && x.starId == id
    {
      var k :| 0 <= k < |starIds| && starIds[k] == id;
      assert rows[k] in rows;
    }
    AllPairs(t.rankings, t.users, Sort(t.episodes, IntLe), t.episodeStars, userId, number);
    RankStarsPermutation(userId, starIds, number);
    StarOrderGivesRankOrder(userId, starIds, number);
  }

  lemma StarOrderGivesRankOrder(userId: UserId, starIds: seq<StarId>, number: int)
    requires Sorted(starIds, StarIdLe)
    ensures forall x, y ::
      (x in RankStars(userId, starIds, number) && y in RankStars(userId, starIds, number) && x.starId < y.starId)
      ==> x.rank < y.rank
  {
    var rows := RankStars(userId, starIds, number);
    SortedStarIds(starIds);
    forall x, y | x in rows && y in rows && x.starId < y.starId
      ensures x.rank < y.rank
    {
      var i :| 0 <= i < |rows| && rows[i] == x;
      var j :| 0 <= j < |rows| && rows[j] == y;
    }
  }

  lemma {:induction false} SortedStarIds(s: seq<StarId>)
    requires Sorted(s, StarIdLe)
    ensures forall i, j :: 0 <= i < j < |s| ==> s[i] <= s[j]
  {
    if |s| >= 2 {
      SortedStarIds(s[1..]);
      assert forall j :: 1 <= j < |s| ==> s[j] == s[1..][j - 1];
    }
  }
}
