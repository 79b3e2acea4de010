/** The records of the document store behind the Express routes (the Mongoose
    schemas of server/models), the store itself as immutable collections, the
    replies a route sends, and the lookups several routes share. */
module Models {
  import opened Common

  type UserId = nat
  type StarId = nat
  type EpisodeId = nat
  type EventId = nat

  datatype User = User(id: UserId, firstName: string, lastName: string, email: string, password: string)

  /** A login session; `expiresAt` is a clock reading. */
  datatype Session = Session(userId: UserId, token: string, expiresAt: int)

  datatype Star = Star(id: StarId, firstName: string, lastName: string, bio: string, active: bool, createdAt: int)

  /** `current` defaults to false when an episode is created. */
  datatype Episode = Episode(id: EpisodeId, number: int, hasAired: bool, events: seq<EventId>, current: bool)

  /** A user's rank for one star; `episode` holds the episode NUMBER, not its id. */
  datatype Ranking = Ranking(userId: UserId, starId: StarId, rank: int, episode: int)

  datatype Event = Event(id: EventId, description: string, time: string, baseAmount: real, star: StarId, episode: EpisodeId)

  /** `id` is the generated text id the bet routes look bets up by; an eligible
      user that did not resolve is stored as a null entry; `won` is None until
      an administrator resolves the bet. */
  datatype Bet = Bet(
    id: string,
    description: string,
    better: Option<UserId>,
    odds: real,
    maxLose: real,
    eligibleUsers: seq<Option<UserId>>,
    acceptedUsers: seq<UserId>,
    episode: int,
    won: Option<bool>)

  datatype Db = Db(
    users: seq<User>,
    sessions: seq<Session>,
    stars: seq<Star>,
    episodes: seq<Episode>,
    rankings: seq<Ranking>,
    bets: seq<Bet>,
    events: seq<Event>)

  /** A route's reply: a success status with a body, an error status with a
      message, or no reply at all when the handler throws outside its
      try block (Express 4 does not catch a rejected async handler). */
  datatype Response<T> = Ok(status: nat, value: T) | Err(status: nat, message: string) | Unhandled

  /** The store after a route ran, and what it sent. */
  datatype Outcome<T> = Outcome(db: Db, response: Response<T>)

  const InternalError := "Internal server error"
  const Unauthorized := "Unauthorized"
  const EpisodeNotFound := "Episode not found"

  function HasToken(token: string): Session -> bool {
    (s: Session) => s.token == token
  }

  function UserIs(id: UserId): User -> bool {
    (u: User) => u.id == id
  }

  function EpisodeIs(id: EpisodeId): Episode -> bool {
    (e: Episode) => e.id == id
  }

  function StarIs(id: StarId): Star -> bool {
    (s: Star) => s.id == id
  }

  /** The session holding `token`, if any. */
  function SessionByToken(sessions: seq<Session>, token: string): (r: Option<Session>)
    ensures r.Some? ==> r.value in sessions && r.value.token == token
    ensures r.None? <==> forall s :: s in sessions ==> s.token != token
  {
    Find(sessions, HasToken(token))
  }

  /** The episode with id `id`, if any. */
  function EpisodeById(episodes: seq<Episode>, id: EpisodeId): (r: Option<Episode>)
    ensures r.Some? ==> r.value in episodes && r.value.id == id
    ensures r.None? <==> forall e :: e in episodes ==> e.id != id
  {
    Find(episodes, EpisodeIs(id))
  }

  /** The user with id `id`, if any. */
  function UserById(users: seq<User>, id: UserId): (r: Option<User>)
    ensures r.Some? ==> r.value in users && r.value.id == id
    ensures r.None? <==> forall u :: u in users ==> u.id != id
  {
    Find(users, UserIs(id))
  }

  predicate StarExists(stars: seq<Star>, id: StarId) {
    exists i :: 0 <= i < |stars| && stars[i].id == id
  }

  /** The highest-numbered episode (the first of them on a tie): what
      `findOne().sort({ number: -1 })` returns. */
  function Latest(episodes: seq<Episode>): (r: Option<Episode>)
    ensures r.None? <==> |episodes| == 0
    ensures r.Some? ==> r.value in episodes
    ensures r.Some? ==> forall e :: e in episodes ==> e.number <= r.value.number
  {
    if |episodes| == 0 then None
    else
      match Latest(episodes[1..])
      case None => Some(episodes[0])
      case Some(m) =>
        assert forall e :: e in episodes ==> e == episodes[0] || e in episodes[1..];
        if episodes[0].number >= m.number then Some(episodes[0]) else Some(m)
  }

  /** One ranking per star for one user and episode number: the star at
      position k gets rank k + 1. */
  function RankStars(userId: UserId, starIds: seq<StarId>, episode: int): (r: seq<Ranking>)
    ensures |r| == |starIds|
    ensures forall k :: 0 <= k < |r| ==> r[k] == Ranking(userId, starIds[k], k + 1, episode)
  {
    if |starIds| == 0 then []
    else RankStars(userId, starIds[..|starIds| - 1], episode) + [Ranking(userId, starIds[|starIds| - 1], |starIds|, episode)]
  }

  /** The set {1, ..., n}. */
  function Range(n: nat): (r: set<int>)
    ensures forall k :: k in r <==> 1 <= k <= n
  {
    if n == 0 then {} else Range(n - 1) + {n}
  }

  function Ranks(rs: seq<Ranking>): set<int> {
    set x | x in rs :: x.rank
  }

  /** The ranks handed out are exactly 1..n, no two rankings share a rank,
      and every listed star is ranked exactly once per occurrence. */
  lemma RankStarsPermutation(userId: UserId, starIds: seq<StarId>, episode: int)
    ensures Ranks(RankStars(userId, starIds, episode)) == Range(|starIds|)
    ensures forall i, j :: 0 <= i < j < |starIds| ==>
      RankStars(userId, starIds, episode)[i].rank != RankStars(userId, starIds, episode)[j].rank
    ensures forall x :: x in RankStars(userId, starIds, episode) ==> x.starId in starIds
  {
    var r := RankStars(userId, starIds, episode);
    forall k | k in Range(|starIds|)
      ensures k in Ranks(r)
    {
      assert r[k - 1].rank == k;
    }
  }

  predicate ByRank(a: Ranking, b: Ranking) {
    a.rank <= b.rank
  }

  lemma ByRankTotal()
    ensures Total(ByRank)
  {
  }

  function OfUser(userId: UserId): Ranking -> bool {
    (x: Ranking) => x.userId == userId
  }

  function OfUserEpisode(userId: UserId, number: int): Ranking -> bool {
    (x: Ranking) => x.userId == userId && x.episode == number
  }

  /** A user's rankings for an episode number in ascending rank order: the
      query `Ranking.find({ userId, episode }).sort({ rank: 1 })`. */
  function UserEpisodeRankings(rankings: seq<Ranking>, userId: UserId, number: int): (r: seq<Ranking>)
    ensures Sorted(r, ByRank)
    ensures forall x :: x in r <==> x in rankings && x.userId == userId && x.episode == number
    ensures multiset(r) == multiset(Filter(rankings, OfUserEpisode(userId, number)))
  {
    ByRankTotal();
    Sort(Filter(rankings, OfUserEpisode(userId, number)), ByRank)
  }
}
