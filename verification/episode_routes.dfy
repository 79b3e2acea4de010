/** The episode routes: reading and moving the "current episode" flag,
    creating an episode together with its default rankings, and attaching
    events to an episode. */
module EpisodeRoutes {
  import opened Common
  import opened Models

  function IsCurrent(): Episode -> bool {
    (e: Episode) => e.current
  }

  predicate UniqueEpisodeIds(episodes: seq<Episode>) {
    forall i, j :: 0 <= i < j < |episodes| ==> episodes[i].id != episodes[j].id
  }

  predicate UniqueUserIds(users: seq<User>) {
    forall i, j :: 0 <= i < j < |users| ==> users[i].id != users[j].id
  }

  /** GET /episodes/current: the first episode flagged current, or null. */
  function GetCurrent(db: Db): (r: Option<Episode>)
    ensures r.Some? ==> r.value in db.episodes && r.value.current
    ensures r.None? <==> forall e :: e in db.episodes ==> !e.current
  {
    Find(db.episodes, IsCurrent())
  }

  /** Two episodes agree on everything except, possibly, the current flag. */
  predicate SameButCurrent(a: Episode, b: Episode) {
    a.id == b.id && a.number == b.number && a.hasAired == b.hasAired && a.events == b.events
  }

  function MarkCurrent(episodes: seq<Episode>, id: EpisodeId): (r: seq<Episode>)
    ensures |r| == |episodes|
    ensures forall i :: 0 <= i < |r| ==> (r[i].current <==> r[i].id == id)
    ensures forall i :: 0 <= i < |r| ==> SameButCurrent(r[i], episodes[i])
  {
    seq(|episodes|, i requires 0 <= i < |episodes| => episodes[i].(current := episodes[i].id == id))
  }

  /** POST /episodes/current: flag the target episode current and every
      other episode not current; an unknown id is a 404 and changes nothing. */
  function SetCurrent(db: Db, episodeId: EpisodeId): (o: Outcome<Episode>)
    ensures (forall e :: e in db.episodes ==> e.id != episodeId) <==> o.response.Err?
    ensures o.response.Err? ==> o.db == db && o.response == Err(404, EpisodeNotFound)
    ensures o.response.Ok? ==>
      && o.response.status == 200
      && o.response.value.id == episodeId && o.response.value.current
      && o.response.value in o.db.episodes
    ensures o.response.Ok? ==>
      && o.db.(episodes := db.episodes) == db
      && |o.db.episodes| == |db.episodes|
      && (forall i :: 0 <= i < |db.episodes| ==> (o.db.episodes[i].current <==> o.db.episodes[i].id == episodeId))
      && (forall i :: 0 <= i < |db.episodes| ==> SameButCurrent(o.db.episodes[i], db.episodes[i]))
  {
    match FirstIndex(db.episodes, EpisodeIs(episodeId))
    case None => Outcome(db, Err(404, EpisodeNotFound))
    case Some(k) =>
      var episodes := MarkCurrent(db.episodes, episodeId);
      Outcome(db.(episodes := episodes), Ok(200, episodes[k]))
  }

  /** With unique ids, a successful set-current leaves exactly one episode current. */
  lemma ExactlyOneCurrent(db: Db, episodeId: EpisodeId)
    requires UniqueEpisodeIds(db.episodes)
    requires SetCurrent(db, episodeId).response.Ok?
    ensures |Filter(SetCurrent(db, episodeId).db.episodes, IsCurrent())| == 1
  {
    var eps := SetCurrent(db, episodeId).db.episodes;
    var k :| 0 <= k < |db.episodes| && db.episodes[k].id == episodeId;
    FilterSingle(eps, IsCurrent(), k);
  }

  /** Reading the current episode right after setting it returns the target. */
  lemma SetThenGet(db: Db, episodeId: EpisodeId)
    requires UniqueEpisodeIds(db.episodes)
    requires SetCurrent(db, episodeId).response.Ok?
    ensures GetCurrent(SetCurrent(db, episodeId).db) == Some(SetCurrent(db, episodeId).response.value)
  {
    var o := SetCurrent(db, episodeId);
    var eps := o.db.episodes;
    var r := GetCurrent(o.db);
    assert r.Some? by {
      assert o.response.value in eps && IsCurrent()(o.response.value);
    }
    var i :| 0 <= i < |eps| && eps[i] == r.value;
    var j :| 0 <= j < |eps| && eps[j] == o.response.value;
    assert eps[i].id == episodeId && eps[j].id == episodeId;
    assert i == j;
  }

  function IsActive(): Star -> bool {
    (s: Star) => s.active
  }

  /** Ids of the active stars in store order: `Star.find({ active: true })`. */
  function ActiveStarIds(stars: seq<Star>): (r: seq<StarId>)
    ensures |r| == |Filter(stars, IsActive())|
    ensures forall k :: 0 <= k < |r| ==> r[k] == Filter(stars, IsActive())[k].id
    ensures forall id :: id in r <==> exists x :: x in stars && x.active && x.id == id
  {
    var active := Filter(stars, IsActive());
    assert forall x :: x in stars && x.active ==> exists k :: 0 <= k < |active| && active[k] == x;
    seq(|active|, k requires 0 <= k < |active| => active[k].id)
  }

  function NotEpisode(number: int): Ranking -> bool {
    (x: Ranking) => x.episode != number
  }

  /** Default rankings for every user in turn, each ranking the given stars
      1..k in order; all inserts are taken to complete, in this order. */
  function SeedRankings(users: seq<User>, starIds: seq<StarId>, number: int): (r: seq<Ranking>)
    ensures forall x :: x in r ==> x.episode == number && 1 <= x.rank <= |starIds| && x.starId in starIds
  {
    if |users| == 0 then []
    else SeedRankings(users[..|users| - 1], starIds, number) + RankStars(users[|users| - 1].id, starIds, number)
  }

  /** A listed user's share of the seeded rankings is exactly one ranking
      per star, ranked in star order. */
  lemma {:induction false} SeedRankingsOfUser(users: seq<User>, starIds: seq<StarId>, number: int, u: User)
    requires UniqueUserIds(users) && u in users
    ensures Filter(SeedRankings(users, starIds, number), OfUser(u.id)) == RankStars(u.id, starIds, number)
    decreases |users|
  {
    var init := users[..|users| - 1];
    var last := users[|users| - 1];
    UniqueInit(users);
    FilterConcat(SeedRankings(init, starIds, number), RankStars(last.id, starIds, number), OfUser(u.id));
    if last.id == u.id {
      SeedRankingsOfStranger(init, starIds, number, u.id);
      FilterKeepsAll(RankStars(last.id, starIds, number), OfUser(u.id));
    } else {
      assert u in init by {
        var i :| 0 <= i < |users| && users[i] == u;
        assert i < |users| - 1;
        assert init[i] == u;
      }
      SeedRankingsOfUser(init, starIds, number, u);
      FilterDropsAll(RankStars(last.id, starIds, number), OfUser(u.id));
    }
  }

  /** A user not in the list gets no seeded ranking. */
  lemma {:induction false} SeedRankingsOfStranger(users: seq<User>, starIds: seq<StarId>, number: int, userId: UserId)
    requires forall u :: u in users ==> u.id != userId
    ensures Filter(SeedRankings(users, starIds, number), OfUser(userId)) == []
    decreases |users|
  {
    if |users| > 0 {
      var init := users[..|users| - 1];
      var last := users[|users| - 1];
      assert forall u :: u in init ==> u in users;
      SeedRankingsOfStranger(init, starIds, number, userId);
      FilterConcat(SeedRankings(init, starIds, number), RankStars(last.id, starIds, number), OfUser(userId));
      FilterDropsAll(RankStars(last.id, starIds, number), OfUser(userId));
    }
  }

  /** Dropping the last user keeps the ids unique, and no remaining user
      shares the last one's id. */
  lemma UniqueInit(users: seq<User>)
    requires UniqueUserIds(users) && |users| > 0
    ensures UniqueUserIds(users[..|users| - 1])
    ensures forall u :: u in users[..|users| - 1] ==> u.id != users[|users| - 1].id
  {
    var init := users[..|users| - 1];
    forall u | u in init ensures u.id != users[|users| - 1].id {
      var i :| 0 <= i < |init| && init[i] == u;
      assert users[i] == u;
    }
  }

  /** POST /episodes: delete every ranking of episode 3 (whatever the new
      number), seed default rankings for every user over the active stars,
      and store the new episode, not current and without events. */
  function CreateEpisode(db: Db, number: int, hasAired: bool, newId: EpisodeId): (o: Outcome<Episode>)
    ensures o.response.Ok? && o.response.status == 201
    ensures o.response.value == Episode(newId, number, hasAired, [], false)
    ensures o.db.episodes == db.episodes + [o.response.value]
    ensures o.db.(episodes := db.episodes, rankings := db.rankings) == db
    ensures forall x :: x in db.rankings && x.episode != 3 ==> x in o.db.rankings
    ensures forall x :: x in o.db.rankings ==> (x in db.rankings && x.episode != 3) || x.episode == number
    ensures number != 3 ==> forall x :: x in o.db.rankings ==> x.episode != 3
  {
    var episode := Episode(newId, number, hasAired, [], false);
    var kept := Filter(db.rankings, NotEpisode(3));
    var seeded := SeedRankings(db.users, ActiveStarIds(db.stars), number);
    Outcome(db.(episodes := db.episodes + [episode], rankings := kept + seeded), Ok(201, episode))
  }

  /** After creation, a user's rankings are those they kept plus one ranking
      per active star, ranked 1..k in active-star order, for the new number. */
  lemma CreateEpisodeSeedsUser(db: Db, number: int, hasAired: bool, newId: EpisodeId, u: User)
    requires UniqueUserIds(db.users) && u in db.users
    ensures Filter(CreateEpisode(db, number, hasAired, newId).db.rankings, OfUser(u.id))
      == Filter(Filter(db.rankings, NotEpisode(3)), OfUser(u.id)) + RankStars(u.id, ActiveStarIds(db.stars), number)
  {
    var kept := Filter(db.rankings, NotEpisode(3));
    var seeded := SeedRankings(db.users, ActiveStarIds(db.stars), number);
    FilterConcat(kept, seeded, OfUser(u.id));
    SeedRankingsOfUser(db.users, ActiveStarIds(db.stars), number, u);
  }

  function OfEpisode(episodeId: EpisodeId): Event -> bool {
    (ev: Event) => ev.episode == episodeId
  }

  /** GET /episodes/:episodeId/events: the events stored under that episode. */
  function EpisodeEvents(db: Db, episodeId: EpisodeId): (r: seq<Event>)
    ensures forall ev :: ev in r <==> ev in db.events && ev.episode == episodeId
    ensures forall ev :: multiset(r)[ev] == if ev.episode == episodeId then multiset(db.events)[ev] else 0
  {
    FilterMultiset(db.events, OfEpisode(episodeId));
    Filter(db.events, OfEpisode(episodeId))
  }

  /** POST /episodes/:episodeId/events: an unknown episode is a 404 and
      stores nothing; otherwise the event is appended as given. The
      episode's own `events` list is not touched. */
  function CreateEpisodeEvent(db: Db, episodeId: EpisodeId, description: string, time: string,
                              baseAmount: real, starId: StarId, newId: EventId): (o: Outcome<Event>)
    ensures (forall e :: e in db.episodes ==> e.id != episodeId) <==> o.response.Err?
    ensures o.response.Err? ==> o.db == db && o.response == Err(404, EpisodeNotFound)
    ensures o.response.Ok? ==>
      && o.response.status == 201
      && o.response.value == Event(newId, description, time, baseAmount, starId, episodeId)
      && o.db == db.(events := db.events + [o.response.value])
  {
    match EpisodeById(db.episodes, episodeId)
    case None => Outcome(db, Err(404, EpisodeNotFound))
    case Some(_) =>
      var event := Event(newId, description, time, baseAmount, starId, episodeId);
      Outcome(db.(events := db.events + [event]), Ok(201, event))
  }

  /** A created event shows up in its episode's event list, after the
      events that were there before. */
  lemma CreateThenListEvents(db: Db, episodeId: EpisodeId, description: string, time: string,
                             baseAmount: real, starId: StarId, newId: EventId)
    requires CreateEpisodeEvent(db, episodeId, description, time, baseAmount, starId, newId).response.Ok?
    ensures var o := CreateEpisodeEvent(db, episodeId, description, time, baseAmount, starId, newId);
      EpisodeEvents(o.db, episodeId) == EpisodeEvents(db, episodeId) + [o.response.value]
  {
    var o := CreateEpisodeEvent(db, episodeId, description, time, baseAmount, starId, newId);
    FilterConcat(db.events, [o.response.value], OfEpisode(episodeId));
    FilterSingle([o.response.value], OfEpisode(episodeId), 0);
  }
}
