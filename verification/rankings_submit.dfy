/** Submitting the rankings page: the page hands its item list to the
    `postRankings` thunk, which reads `rankings` off its argument and posts
    `{ rankings, episodeId }`. The page passes the bare array, so the body
    carries no `rankings`, and the server deletes the user's rankings before
    failing. `SubmitAsWritten` is the page as it is; `Submit` wraps the
    items in an object, as the thunk expects. */
module RankingsSubmit {
  import opened Common
  import opened Models
  import opened RankingsPage
  import opened RankingRoutes

  /** The thunk's argument: a bare array, or an object whose `rankings`
      property may be missing. */
  datatype PostArg = ArrayArg(items: seq<Item>) | ObjectArg(rankings: Option<seq<Item>>)

  /** The submitted list as the server reads it. */
  function AsRankedStars(items: seq<Item>): (r: seq<RankedStar>)
    ensures |r| == |items| && forall i :: 0 <= i < |items| ==> r[i] == RankedStar(items[i].starId, items[i].rank)
  {
    seq(|items|, i requires 0 <= i < |items| => RankedStar(items[i].starId, items[i].rank))
  }

  /** `req.body.rankings` for the thunk's argument: destructuring an array
      finds no `rankings` property, and `JSON.stringify` drops the undefined
      value, so the body has none. */
  function BodyRankings(arg: PostArg): (r: Option<seq<RankedStar>>)
    ensures arg.ArrayArg? ==> r.None?
    ensures r.Some? <==> arg.ObjectArg? && arg.rankings.Some?
    ensures r.Some? ==> r.value == AsRankedStars(arg.rankings.value)
  {
    match arg
    case ArrayArg(_) => None
    case ObjectArg(None) => None
    case ObjectArg(Some(items)) => Some(AsRankedStars(items))
  }

  /** `handleSubmit` as written: `postRankings(items)`. */
  function SubmitAsWritten(items: seq<Item>): (arg: PostArg)
    ensures BodyRankings(arg).None?
  {
    ArrayArg(items)
  }

  /** `handleSubmit` as the thunk expects it: `postRankings({ rankings: items })`. */
  function Submit(items: seq<Item>): (arg: PostArg)
    ensures BodyRankings(arg) == Some(AsRankedStars(items))
  {
    ObjectArg(Some(items))
  }

  /** As written, a signed-in user who submits loses every ranking, in every
      episode, and gets a 500, whatever the page held. */
  lemma SubmitAsWrittenWipes(db: Db, token: string, items: seq<Item>)
    requires SessionByToken(db.sessions, token).Some?
    ensures
      var userId := SessionByToken(db.sessions, token).value.userId;
      var o := PostRankings(db, token, BodyRankings(SubmitAsWritten(items)));
      && o.response == Err(500, InternalError)
      && (forall x :: x in o.db.rankings ==> x.userId != userId)
  {
  }

  /** A concrete instance: one user with one ranking, one episode, one star;
      submitting the unchanged page removes the ranking. */
  lemma SubmitAsWrittenExample()
    ensures
      var db := Db([User(1, "A", "B", "a@b", "h")], [Session(1, "t", 0)], [Star(2, "A", "B", "", true, 0)],
                   [Episode(3, 1, false, [], true)], [Ranking(1, 2, 1, 1)], [], []);
      var o := PostRankings(db, "t", BodyRankings(SubmitAsWritten([Item("r", 2, 1)])));
      o.response.Err? && o.db.rankings == [] && db.rankings != []
  {
    var db := Db([User(1, "A", "B", "a@b", "h")], [Session(1, "t", 0)], [Star(2, "A", "B", "", true, 0)],
                 [Episode(3, 1, false, [], true)], [Ranking(1, 2, 1, 1)], [], []);
    assert SessionByToken(db.sessions, "t") == Some(Session(1, "t", 0));
    assert NotUser(1)(Ranking(1, 2, 1, 1)) == false;
  }

  /** Wrapped in an object, the page's items are what the server stores:
      with a session and an episode the post succeeds, every item with a
      known star is stored as the user's ranking at its rank under the
      latest episode, once and in page order, and the user has no other
      rankings. */
  lemma SubmitStores(db: Db, token: string, items: seq<Item>)
    requires SessionByToken(db.sessions, token).Some? && Latest(db.episodes).Some?
    ensures
      var userId := SessionByToken(db.sessions, token).value.userId;
      var number := Latest(db.episodes).value.number;
      var o := PostRankings(db, token, BodyRankings(Submit(items)));
      && o.response.Ok?
      && (forall i :: 0 <= i < |items| && StarExists(db.stars, items[i].starId) ==>
            Ranking(userId, items[i].starId, items[i].rank, number) in o.db.rankings)
      && (forall x :: x in o.db.rankings && x.userId == userId ==>
            x.episode == number && exists i :: 0 <= i < |items| && items[i].starId == x.starId && items[i].rank == x.rank)
      && Filter(o.db.rankings, OfUser(userId)) == SubmittedRankings(db.stars, AsRankedStars(items), userId, number)
  {
    var body := AsRankedStars(items);
    var o := PostRankings(db, token, Some(body));
    var userId := SessionByToken(db.sessions, token).value.userId;
    forall i | 0 <= i < |items| && StarExists(db.stars, items[i].starId)
      ensures Ranking(userId, items[i].starId, items[i].rank, Latest(db.episodes).value.number) in o.db.rankings
    {
      assert body[i] in body;
    }
    forall x | x in o.db.rankings && x.userId == userId
      ensures exists i :: 0 <= i < |items| && items[i].starId == x.starId && items[i].rank == x.rank
    {
      var e := RankedStar(x.starId, x.rank);
      assert e in body;
      var i :| 0 <= i < |body| && body[i] == e;
      assert items[i].starId == x.starId && items[i].rank == x.rank;
    }
  }
}
