/** The ranking routes: reading the session user's rankings for one episode,
    and replacing all of the session user's rankings with a submitted list. */
module RankingRoutes {
  import opened Common
  import opened Models

  /** One entry of the submitted list. */
  datatype RankedStar = RankedStar(starId: StarId, rank: int)

  /** GET /rankings?episodeId=: no session for the token, or no episode id,
      is a 401; an id naming no episode makes the handler read `number` of
      null, a 500; otherwise the session user's rankings for that episode's
      number in ascending rank order. Reads only. */
  function GetRankings(db: Db, token: string, episodeId: Option<EpisodeId>): (r: Response<seq<Ranking>>)
    ensures (SessionByToken(db.sessions, token).None? || episodeId.None?) <==> r == Err(401, Unauthorized)
    ensures r.Err? && r.status != 401 ==>
      r == Err(500, InternalError) && EpisodeById(db.episodes, episodeId.value).None?
    ensures r.Ok? ==> r.status == 200 && Sorted(r.value, ByRank)
    ensures r.Ok? ==> episodeId.Some? && EpisodeById(db.episodes, episodeId.value).Some?
    ensures r.Ok? ==>
      var userId := SessionByToken(db.sessions, token).value.userId;
      var number := EpisodeById(db.episodes, episodeId.value).value.number;
      forall x :: x in r.value <==> x in db.rankings && x.userId == userId && x.episode == number
    ensures r.Ok? ==>
      var userId := SessionByToken(db.sessions, token).value.userId;
      var number := EpisodeById(db.episodes, episodeId.value).value.number;
      forall x :: multiset(r.value)[x] == if x.userId == userId && x.episode == number then multiset(db.rankings)[x] else 0
    ensures !r.Unhandled?
  {
    match SessionByToken(db.sessions, token)
    case None => Err(401, Unauthorized)
    case Some(session) =>
      match episodeId
      case None => Err(401, Unauthorized)
      case Some(id) =>
        match EpisodeById(db.episodes, id)
        case None => Err(500, InternalError)
        case Some(episode) =>
          FilterMultiset(db.rankings, OfUserEpisode(session.userId, episode.number));
          Ok(200, UserEpisodeRankings(db.rankings, session.userId, episode.number))
  }

  function NotUser(userId: UserId): Ranking -> bool {
    (x: Ranking) => x.userId != userId
  }

  function KnownStar(stars: seq<Star>): RankedStar -> bool {
    (e: RankedStar) => StarExists(stars, e.starId)
  }

  /** The rankings created from a submitted list: one per entry whose star
      exists, in submission order, tagged with the user and episode number;
      entries naming unknown stars are dropped. */
  function SubmittedRankings(stars: seq<Star>, submitted: seq<RankedStar>, userId: UserId, number: int): (r: seq<Ranking>)
    ensures var known := Filter(submitted, KnownStar(stars));
      |r| == |known| && forall k :: 0 <= k < |r| ==> r[k] == Ranking(userId, known[k].starId, known[k].rank, number)
    ensures forall x :: x in r ==> x.userId == userId && x.episode == number
    ensures forall x :: x in r ==> RankedStar(x.starId, x.rank) in submitted && StarExists(stars, x.starId)
    ensures forall e :: e in submitted && StarExists(stars, e.starId) ==> Ranking(userId, e.starId, e.rank, number) in r
  {
    if |submitted| == 0 then []
    else
      var head := if StarExists(stars, submitted[0].starId)
        then [Ranking(userId, submitted[0].starId, submitted[0].rank, number)] else [];
      assert forall e :: e in submitted ==> e == submitted[0] || e in submitted[1..];
      head + SubmittedRankings(stars, submitted[1..], userId, number)
  }

  /** POST /rankings: without a session for the token, a 401 that changes
      nothing. Otherwise every ranking of the session user, in any episode,
      is deleted first. Then the submitted entries with known stars are
      stored under the highest episode number, and the reply lists the
      user's rankings in ascending rank order. A body without a `rankings`
      list (None) fails right after the deletion: a 500. With no episode at
      all, any entry with a known star reads `number` of null: a 500 too,
      after the deletion; when no entry names a known star, nothing is read
      and the reply is a 201 with the now empty list. */
  function PostRankings(db: Db, token: string, body: Option<seq<RankedStar>>): (o: Outcome<seq<Ranking>>)
    ensures SessionByToken(db.sessions, token).None? <==> o.response == Err(401, Unauthorized)
    ensures o.response == Err(401, Unauthorized) ==> o.db == db
    ensures o.db.(rankings := db.rankings) == db
    ensures SessionByToken(db.sessions, token).Some? ==>
      var userId := SessionByToken(db.sessions, token).value.userId;
      && (forall x :: x in o.db.rankings && x.userId == userId ==>
            body.Some? && RankedStar(x.starId, x.rank) in body.value && StarExists(db.stars, x.starId))
      && (forall x :: x in db.rankings && x.userId != userId <==> x in o.db.rankings && x.userId != userId)
    ensures o.response.Ok? ==>
      var userId := SessionByToken(db.sessions, token).value.userId;
      && o.response.status == 201
      && Sorted(o.response.value, ByRank)
      && (forall x :: x in o.response.value <==> x in o.db.rankings && x.userId == userId)
    ensures body.Some? && Latest(db.episodes).Some? && SessionByToken(db.sessions, token).Some? ==>
      var userId := SessionByToken(db.sessions, token).value.userId;
      var number := Latest(db.episodes).value.number;
      && o.response.Ok?
      && (forall e :: e in body.value && StarExists(db.stars, e.starId) ==>
            Ranking(userId, e.starId, e.rank, number) in o.db.rankings)
      && (forall x :: x in o.db.rankings && x.userId == userId ==> x.episode == number)
      && Filter(o.db.rankings, OfUser(userId)) == SubmittedRankings(db.stars, body.value, userId, number)
      && multiset(o.response.value) == multiset(SubmittedRankings(db.stars, body.value, userId, number))
    ensures body.Some? && Latest(db.episodes).None? && SessionByToken(db.sessions, token).Some? ==>
      var userId := SessionByToken(db.sessions, token).value.userId;
      && o.db == db.(rankings := Filter(db.rankings, NotUser(userId)))
      && (o.response == Err(500, InternalError) <==> exists e :: e in body.value && StarExists(db.stars, e.starId))
      && (o.response.Ok? ==> o.response == Ok(201, []))
    ensures body.None? && SessionByToken(db.sessions, token).Some? ==> o.response == Err(500, InternalError)
    ensures o.response.Err? && o.response.status != 401 ==>
      o.response == Err(500, InternalError) && (body.None? || Latest(db.episodes).None?)
  {
    match SessionByToken(db.sessions, token)
    case None => Outcome(db, Err(401, Unauthorized))
    case Some(session) =>
      var userId := session.userId;
      var others := Filter(db.rankings, NotUser(userId));
      match body
      case None => Outcome(db.(rankings := others), Err(500, InternalError))
      case Some(submitted) =>
        match Latest(db.episodes)
        case None =>
          if exists i :: 0 <= i < |submitted| && StarExists(db.stars, submitted[i].starId)
          then Outcome(db.(rankings := others), Err(500, InternalError))
          else Outcome(db.(rankings := others), Ok(201, []))
        case Some(latest) => StoreSubmitted(db, userId, submitted, latest.number)
  }

  /** The success path of a post: the user's old rows removed, the new rows
      appended, and the user's rows replied in rank order. */
  function StoreSubmitted(db: Db, userId: UserId, submitted: seq<RankedStar>, number: int): (o: Outcome<seq<Ranking>>)
    ensures o.db.(rankings := db.rankings) == db
    ensures o.response.Ok? && o.response.status == 201 && Sorted(o.response.value, ByRank)
    ensures forall x :: x in o.response.value <==> x in o.db.rankings && x.userId == userId
    ensures forall x :: x in db.rankings && x.userId != userId <==> x in o.db.rankings && x.userId != userId
    ensures Filter(o.db.rankings, OfUser(userId)) == SubmittedRankings(db.stars, submitted, userId, number)
    ensures multiset(o.response.value) == multiset(SubmittedRankings(db.stars, submitted, userId, number))
  {
    var others := Filter(db.rankings, NotUser(userId));
    var added := SubmittedRankings(db.stars, submitted, userId, number);
    var rankings := others + added;
    UserRowsAfterPost(others, added, userId, number);
    ByRankTotal();
    Outcome(db.(rankings := rankings), Ok(201, Sort(Filter(rankings, OfUser(userId)), ByRank)))
  }

  /** Rankings of other users come out of a POST in the same order and with
      the same multiplicities as they went in. */
  lemma PostKeepsOtherUsers(db: Db, token: string, body: Option<seq<RankedStar>>)
    requires SessionByToken(db.sessions, token).Some?
    ensures
      var userId := SessionByToken(db.sessions, token).value.userId;
      Filter(PostRankings(db, token, body).db.rankings, NotUser(userId)) == Filter(db.rankings, NotUser(userId))
  {
    var userId := SessionByToken(db.sessions, token).value.userId;
    var others := Filter(db.rankings, NotUser(userId));
    FilterKeepsAll(others, NotUser(userId));
    if body.Some? && Latest(db.episodes).Some? {
      var added := SubmittedRankings(db.stars, body.value, userId, Latest(db.episodes).value.number);
      FilterConcat(others, added, NotUser(userId));
      FilterDropsAll(added, NotUser(userId));
    }
  }

  /** Reading back the latest episode right after a post returns the very
      sequence the post replied with: the user's stored rankings, in rank
      order. */
  lemma PostThenGet(db: Db, token: string, submitted: seq<RankedStar>)
    requires SessionByToken(db.sessions, token).Some? && Latest(db.episodes).Some?
    requires EpisodeById(db.episodes, Latest(db.episodes).value.id) == Latest(db.episodes)
    ensures var o := PostRankings(db, token, Some(submitted));
      var got := GetRankings(o.db, token, Some(Latest(db.episodes).value.id));
      && got.Ok? && o.response.Ok?
      && got.value == o.response.value
  {
    var userId := SessionByToken(db.sessions, token).value.userId;
    var number := Latest(db.episodes).value.number;
    var others := Filter(db.rankings, NotUser(userId));
    var added := SubmittedRankings(db.stars, submitted, userId, number);
    UserRowsAfterPost(others, added, userId, number);
  }

  /** After a post the stored rows are the other users' rows followed by
      the new ones; selecting the user, with or without the episode
      number, selects exactly the new ones. */
  lemma UserRowsAfterPost(others: seq<Ranking>, added: seq<Ranking>, userId: UserId, number: int)
    requires forall i :: 0 <= i < |others| ==> NotUser(userId)(others[i])
    requires forall x :: x in added ==> x.userId == userId && x.episode == number
    ensures Filter(others + added, OfUser(userId)) == added
    ensures Filter(others + added, OfUserEpisode(userId, number)) == added
  {
    FilterConcat(others, added, OfUserEpisode(userId, number));
    FilterDropsAll(others, OfUserEpisode(userId, number));
    FilterKeepsAll(added, OfUserEpisode(userId, number));
    FilterConcat(others, added, OfUser(userId));
    FilterDropsAll(others, OfUser(userId));
    FilterKeepsAll(added, OfUser(userId));
  }
}
