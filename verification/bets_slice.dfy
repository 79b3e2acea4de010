/** The client's bet store: the list of bets shown in the bets table. */
module BetsSlice {
  import opened Common
  import opened Models

  datatype State = State(list: seq<Bet>)

  const Initial := State([])

  datatype Action = BetsFetched(bets: seq<Bet>) | BetCreated(bet: Bet) | BetUpdated(bet: Bet) | Unrelated

  /** The `fetchBets` thunk's payload: the listed bets, or, when the request
      fails (None), an empty list; the thunk itself never rejects. */
  function FetchBetsPayload(response: Option<seq<Bet>>): (r: seq<Bet>)
    ensures response.Some? ==> r == response.value
    ensures response.None? ==> r == []
  {
    match response
    case None => []
    case Some(bets) => bets
  }

  function SameId(id: string): Bet -> bool {
    (b: Bet) => b.id == id
  }

  function Reduce(s: State, a: Action): (r: State)
    ensures a.BetsFetched? ==> r.list == a.bets
    ensures a.BetCreated? ==> r.list == s.list + [a.bet]
    ensures a.BetUpdated? ==>
      && |r.list| == |s.list|
      && (forall j :: 0 <= j < |s.list| ==>
            || r.list[j] == s.list[j]
            || (s.list[j].id == a.bet.id && r.list[j] == a.bet && forall i :: 0 <= i < j ==> s.list[i].id != a.bet.id))
      && ((forall b :: b in s.list ==> b.id != a.bet.id) ==> r == s)
      && ((exists b :: b in s.list && b.id == a.bet.id) ==> a.bet in r.list)
      && (forall k :: 0 <= k < |s.list| && s.list[k].id == a.bet.id && (forall i :: 0 <= i < k ==> s.list[i].id != a.bet.id) ==>
            r.list[k] == a.bet)
    ensures a.Unrelated? ==> r == s
  {
    match a
    case BetsFetched(bets) => State(bets)
    case BetCreated(bet) => State(s.list + [bet])
    case BetUpdated(bet) => State(ReplaceFirst(s.list, SameId(bet.id), bet))
    case Unrelated => s
  }

  /** With distinct ids, an update replaces exactly the bet with that id. */
  lemma UpdateReplacesOne(s: State, bet: Bet)
    requires forall i, j :: 0 <= i < j < |s.list| ==> s.list[i].id != s.list[j].id
    ensures var r := Reduce(s, BetUpdated(bet)).list;
      |r| == |s.list| && forall j :: 0 <= j < |r| ==> r[j] == if s.list[j].id == bet.id then bet else s.list[j]
  {
    var r := Reduce(s, BetUpdated(bet)).list;
    forall j | 0 <= j < |r| ensures r[j] == if s.list[j].id == bet.id then bet else s.list[j] {
      if s.list[j].id == bet.id {
        var k := FirstIndex(s.list, SameId(bet.id)).value;
        assert k == j;
      }
    }
  }

  /** Whatever the store held, a fetch leaves it showing exactly what the
      server listed, and a failed fetch leaves an empty table rather than
      the old bets. */
  lemma FetchShowsServerList(s: State, response: Option<seq<Bet>>)
    ensures response.Some? ==> Reduce(s, BetsFetched(FetchBetsPayload(response))).list == response.value
    ensures response.None? ==> Reduce(s, BetsFetched(FetchBetsPayload(response))) == Initial
  {
  }
}
