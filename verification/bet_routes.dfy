/** The bet routes: listing an episode's bets, proposing a bet, recording
    its outcome and deleting it. */
module BetRoutes {
  import opened Common
  import opened Models

  const BetNotFound := "Bet not found"
  const BetDeleted := "Bet deleted successfully"

  /** The `episodeId` query parameter: the literal text "undefined", which
      the client sends when it has no episode, or an episode id. */
  datatype EpisodeQuery = UndefinedText | ById(id: EpisodeId)

  function InEpisode(number: int): Bet -> bool {
    (b: Bet) => b.episode == number
  }

  function BetIs(id: string): Bet -> bool {
    (b: Bet) => b.id == id
  }

  predicate UniqueBetIds(bets: seq<Bet>) {
    forall i, j :: 0 <= i < j < |bets| ==> bets[i].id != bets[j].id
  }

  /** GET /bets: the bets of the named episode's number; the highest number
      when "undefined" was sent or the named episode's number is 0 (falsy).
      A named episode that does not exist, or a needed fallback when there
      are no episodes, reads `number` of null: a 500. Reads only. */
  function ListBets(db: Db, q: EpisodeQuery): (r: Response<seq<Bet>>)
    ensures r.Ok? || r == Err(500, InternalError)
    ensures r.Ok? ==> r.status == 200 && forall b :: b in r.value ==> b in db.bets
    ensures q.UndefinedText? && Latest(db.episodes).Some? ==>
      r.Ok? && forall b :: b in r.value <==> b in db.bets && b.episode == Latest(db.episodes).value.number
    ensures q.UndefinedText? && Latest(db.episodes).Some? ==>
      r.Ok? && forall b :: multiset(r.value)[b] == if b.episode == Latest(db.episodes).value.number then multiset(db.bets)[b] else 0
    ensures q.ById? && EpisodeById(db.episodes, q.id).Some? && EpisodeById(db.episodes, q.id).value.number != 0 ==>
      r.Ok? && forall b :: b in r.value <==> b in db.bets && b.episode == EpisodeById(db.episodes, q.id).value.number
    ensures q.ById? && EpisodeById(db.episodes, q.id).Some? && EpisodeById(db.episodes, q.id).value.number != 0 ==>
      r.Ok? && forall b :: multiset(r.value)[b] == if b.episode == EpisodeById(db.episodes, q.id).value.number then multiset(db.bets)[b] else 0
    ensures q.ById? && EpisodeById(db.episodes, q.id).Some? && EpisodeById(db.episodes, q.id).value.number == 0 ==>
      r.Ok? && forall b :: b in r.value <==> b in db.bets && b.episode == Latest(db.episodes).value.number
    ensures q.ById? && EpisodeById(db.episodes, q.id).Some? && EpisodeById(db.episodes, q.id).value.number == 0 ==>
      r.Ok? && forall b :: multiset(r.value)[b] == if b.episode == Latest(db.episodes).value.number then multiset(db.bets)[b] else 0
    ensures q.ById? && EpisodeById(db.episodes, q.id).None? ==> r.Err?
    ensures q.UndefinedText? && |db.episodes| == 0 ==> r.Err?
  {
    var named: Option<int> :=
      match q
      case UndefinedText => Some(0)
      case ById(id) =>
        match EpisodeById(db.episodes, id)
        case None => None
        case Some(e) => Some(e.number);
    match named
    case None => Err(500, InternalError)
    case Some(n) =>
      if n != 0 then
        FilterMultiset(db.bets, InEpisode(n));
        Ok(200, Filter(db.bets, InEpisode(n)))
      else
        match Latest(db.episodes)
        case None => Err(500, InternalError)
        case Some(latest) =>
          FilterMultiset(db.bets, InEpisode(latest.number));
          Ok(200, Filter(db.bets, InEpisode(latest.number)))
  }

  /** Each requested eligible user id, kept where it names a user and null
      where it does not; count and order are preserved. */
  function ResolveUsers(users: seq<User>, ids: seq<UserId>): (r: seq<Option<UserId>>)
    ensures |r| == |ids|
    ensures forall i :: 0 <= i < |ids| ==> (r[i] == Some(ids[i]) <==> exists u :: u in users && u.id == ids[i])
    ensures forall i :: 0 <= i < |ids| ==> (r[i].None? <==> forall u :: u in users ==> u.id != ids[i])
  {
    seq(|ids|, i requires 0 <= i < |ids| => ResolveUser(users, ids[i]))
  }

  function ResolveUser(users: seq<User>, id: UserId): (r: Option<UserId>)
    ensures r == Some(id) <==> exists u :: u in users && u.id == id
    ensures r.None? <==> forall u :: u in users ==> u.id != id
  {
    match UserById(users, id)
    case None => None
    case Some(u) => Some(u.id)
  }

  /** POST /bets: the bet is proposed by the session user, starts unresolved
      with nobody accepted, and belongs to the highest-numbered episode. The
      handler reads the session's user id before testing the session, so a
      missing session is a 500, never a 401; no episode at all is a 500 too. */
  function CreateBet(db: Db, token: string, description: string, odds: real, maxLose: real,
                     eligible: seq<UserId>, newId: string): (o: Outcome<Bet>)
    ensures o.response.Ok? || (o.response == Err(500, InternalError) && o.db == db)
    ensures SessionByToken(db.sessions, token).None? ==> o.response.Err?
    ensures Latest(db.episodes).None? ==> o.response.Err?
    ensures SessionByToken(db.sessions, token).Some? && Latest(db.episodes).Some? ==> o.response.Ok?
    ensures o.response.Ok? ==>
      var bet := o.response.value;
      var session := SessionByToken(db.sessions, token).value;
      && o.response.status == 201
      && o.db == db.(bets := db.bets + [bet])
      && bet.id == newId && bet.description == description && bet.odds == odds && bet.maxLose == maxLose
      && bet.episode == Latest(db.episodes).value.number
      && (bet.better == Some(session.userId) <==> exists u :: u in db.users && u.id == session.userId)
      && (bet.better.None? <==> forall u :: u in db.users ==> u.id != session.userId)
      && bet.acceptedUsers == [] && bet.won.None?
      && |bet.eligibleUsers| == |eligible|
      && (forall i :: 0 <= i < |eligible| ==>
            (bet.eligibleUsers[i] == Some(eligible[i]) <==> exists u :: u in db.users && u.id == eligible[i]))
      && (forall i :: 0 <= i < |eligible| ==>
            (bet.eligibleUsers[i].None? <==> forall u :: u in db.users ==> u.id != eligible[i]))
  {
    match SessionByToken(db.sessions, token)
    case None => Outcome(db, Err(500, InternalError))
    case Some(session) =>
      var better := match UserById(db.users, session.userId) case None => None case Some(u) => Some(u.id);
      var users := ResolveUsers(db.users, eligible);
      match Latest(db.episodes)
      case None => Outcome(db, Err(500, InternalError))
      case Some(latest) =>
        var bet := Bet(newId, description, better, odds, maxLose, users, [], latest.number, None);
        Outcome(db.(bets := db.bets + [bet]), Ok(201, bet))
  }

  /** A bet just created is listed for the latest episode, whether the
      listing names no episode or names the latest one. */
  lemma CreateThenList(db: Db, token: string, description: string, odds: real, maxLose: real,
                       eligible: seq<UserId>, newId: string)
    requires CreateBet(db, token, description, odds, maxLose, eligible, newId).response.Ok?
    ensures var o := CreateBet(db, token, description, odds, maxLose, eligible, newId);
      var listed := ListBets(o.db, UndefinedText);
      listed.Ok? && o.response.value in listed.value
    ensures var o := CreateBet(db, token, description, odds, maxLose, eligible, newId);
      var latest := Latest(db.episodes).value;
      EpisodeById(db.episodes, latest.id) == Some(latest) ==>
        var listed := ListBets(o.db, ById(latest.id));
        listed.Ok? && o.response.value in listed.value
  {
    var o := CreateBet(db, token, description, odds, maxLose, eligible, newId);
    assert o.response.value in o.db.bets;
  }

  /** Bet creation with the session tested before it is read, as the
      handler's own 401 branch intends: a missing session is a 401 that
      stores nothing; with a session it behaves as the handler does. */
  function CreateBetChecked(db: Db, token: string, description: string, odds: real, maxLose: real,
                            eligible: seq<UserId>, newId: string): (o: Outcome<Bet>)
    ensures SessionByToken(db.sessions, token).None? <==> o.response == Err(401, Unauthorized)
    ensures o.response.Err? ==> o.db == db
    ensures SessionByToken(db.sessions, token).Some? ==>
      (o.response.Ok? <==> Latest(db.episodes).Some?)
    ensures SessionByToken(db.sessions, token).Some? && Latest(db.episodes).None? ==>
      o.response == Err(500, InternalError)
    ensures o.response.Ok? ==>
      && o.response.status == 201
      && o.db == db.(bets := db.bets + [o.response.value])
      && o.response.value.id == newId
      && o.response.value.episode == Latest(db.episodes).value.number
  {
    if SessionByToken(db.sessions, token).None? then Outcome(db, Err(401, Unauthorized))
    else CreateBet(db, token, description, odds, maxLose, eligible, newId)
  }

  /** The corrected handler answers a missing session with the 401 the
      handler as written never gives, and stores no bet; with a session the
      two agree. */
  lemma CreateBetCheckedUnauthorized(db: Db, token: string, description: string, odds: real, maxLose: real,
                                     eligible: seq<UserId>, newId: string)
    ensures var checked := CreateBetChecked(db, token, description, odds, maxLose, eligible, newId);
      var written := CreateBet(db, token, description, odds, maxLose, eligible, newId);
      && (SessionByToken(db.sessions, token).None? ==>
            checked.response == Err(401, Unauthorized) && checked.db.bets == db.bets
            && written.response == Err(500, InternalError))
      && (SessionByToken(db.sessions, token).Some? ==> checked == written)
  {
  }

  /** A missing session never yields a 401 from bet creation. */
  lemma CreateBetNeverUnauthorized(db: Db, token: string, description: string, odds: real, maxLose: real,
                                   eligible: seq<UserId>, newId: string)
    ensures CreateBet(db, token, description, odds, maxLose, eligible, newId).response != Err(401, Unauthorized)
  {
  }

  /** PUT /bets/:betId: an unknown id is a 404 and changes nothing;
      otherwise the first bet with that id gets `won` as sent, and no other
      field and no other bet changes. */
  function UpdateBet(db: Db, betId: string, won: Option<bool>): (o: Outcome<Bet>)
    ensures (forall b :: b in db.bets ==> b.id != betId) <==> o.response.Err?
    ensures o.response.Err? ==> o.db == db && o.response == Err(404, BetNotFound)
    ensures o.response.Ok? ==>
      && o.response.status == 200
      && o.db.(bets := db.bets) == db
      && |o.db.bets| == |db.bets|
      && o.response.value.id == betId && o.response.value.won == won
      && o.response.value in o.db.bets
      && (forall j :: 0 <= j < |db.bets| ==>
            o.db.bets[j] == db.bets[j] || (db.bets[j].id == betId && o.db.bets[j] == db.bets[j].(won := won)))
    ensures |o.db.bets| == |db.bets|
    ensures forall k :: 0 <= k < |db.bets| && db.bets[k].id == betId && (forall i :: 0 <= i < k ==> db.bets[i].id != betId) ==>
      && o.db.bets[k] == db.bets[k].(won := won)
      && o.response == Ok(200, o.db.bets[k])
      && (forall j :: 0 <= j < |db.bets| && j != k ==> o.db.bets[j] == db.bets[j])
  {
    match FirstIndex(db.bets, BetIs(betId))
    case None => Outcome(db, Err(404, BetNotFound))
    case Some(k) =>
      var bet := db.bets[k].(won := won);
      assert db.bets[k := bet][k] == bet;
      Outcome(db.(bets := db.bets[k := bet]), Ok(200, bet))
  }

  /** With unique bet ids, exactly the named bet is updated. */
  lemma UpdateBetExactlyOne(db: Db, betId: string, won: Option<bool>)
    requires UniqueBetIds(db.bets)
    ensures var bets := UpdateBet(db, betId, won).db.bets;
      && |bets| == |db.bets|
      && forall j :: 0 <= j < |db.bets| ==>
           bets[j] == if db.bets[j].id == betId then db.bets[j].(won := won) else db.bets[j]
  {
  }

  /** DELETE /bets/:betId: an unknown id is a 404 and changes nothing;
      otherwise the first bet with that id is removed and the others keep
      their order. */
  function DeleteBet(db: Db, betId: string): (o: Outcome<string>)
    ensures (forall b :: b in db.bets ==> b.id != betId) <==> o.response.Err?
    ensures o.response.Err? ==> o.db == db && o.response == Err(404, BetNotFound)
    ensures o.response.Ok? ==>
      && o.response == Ok(200, BetDeleted)
      && o.db.(bets := db.bets) == db
      && |o.db.bets| == |db.bets| - 1
      && exists b :: b in db.bets && b.id == betId && multiset(o.db.bets) + multiset{b} == multiset(db.bets)
    ensures forall k :: 0 <= k < |db.bets| && db.bets[k].id == betId && (forall i :: 0 <= i < k ==> db.bets[i].id != betId) ==>
      && o.response.Ok?
      && |o.db.bets| == |db.bets| - 1
      && (forall j :: 0 <= j < k ==> o.db.bets[j] == db.bets[j])
      && (forall j :: k <= j < |o.db.bets| ==> o.db.bets[j] == db.bets[j + 1])
  {
    match FirstIndex(db.bets, BetIs(betId))
    case None => Outcome(db, Err(404, BetNotFound))
    case Some(k) => Outcome(db.(bets := RemoveAt(db.bets, k)), Ok(200, BetDeleted))
  }

  /** With unique bet ids, deleting keeps exactly the bets with other ids. */
  lemma DeleteBetExactlyOne(db: Db, betId: string)
    requires UniqueBetIds(db.bets)
    requires DeleteBet(db, betId).response.Ok?
    ensures forall b :: b in DeleteBet(db, betId).db.bets <==> b in db.bets && b.id != betId
  {
    var k := FirstIndex(db.bets, BetIs(betId)).value;
    RemoveUniqueBet(db.bets, k, betId);
    assert DeleteBet(db, betId).db.bets == RemoveAt(db.bets, k);
  }

  /** Removing a bet whose id no other bet shares leaves exactly the bets
      with other ids. */
  lemma RemoveUniqueBet(bets: seq<Bet>, k: nat, betId: string)
    requires UniqueBetIds(bets)
    requires k < |bets| && bets[k].id == betId
    ensures forall b :: b in RemoveAt(bets, k) <==> b in bets && b.id != betId
  {
    var r := RemoveAt(bets, k);
    forall b | b in bets && b.id != betId ensures b in r {
      var j :| 0 <= j < |bets| && bets[j] == b;
      if j < k { assert r[j] == b; } else { assert r[j - 1] == b; }
    }
    forall b | b in r ensures b in bets && b.id != betId {
      var j :| 0 <= j < |r| && r[j] == b;
      if j < k { assert b == bets[j]; } else { assert b == bets[j + 1]; }
    }
  }
}
