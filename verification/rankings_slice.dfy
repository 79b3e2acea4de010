/** The client's ranking store: the session user's rankings for the page. */
module RankingsSlice {
  import opened Common

  datatype State<R> = State(list: seq<R>)

  function Initial<R>(): State<R> {
    State([])
  }

  datatype Action<R> = RankingsFetched(rankings: seq<R>) | RankingsPosted(rankings: seq<R>) | Unrelated

  function Reduce<R>(s: State<R>, a: Action<R>): (r: State<R>)
    ensures a.RankingsFetched? ==> r.list == a.rankings
    ensures a.RankingsPosted? ==> r.list == a.rankings
    ensures a.Unrelated? ==> r == s
  {
    match a
    case RankingsFetched(rankings) => State(rankings)
    case RankingsPosted(rankings) => State(rankings)
    case Unrelated => s
  }

  function ReduceAll<R>(s: State<R>, actions: seq<Action<R>>): State<R>
    decreases |actions|
  {
    if |actions| == 0 then s else ReduceAll(Reduce(s, actions[0]), actions[1..])
  }

  /** The payload of the last fetch or post in a run of actions, if any. */
  function LastPayload<R>(actions: seq<Action<R>>): Option<seq<R>>
    decreases |actions|
  {
    if |actions| == 0 then None
    else match actions[|actions| - 1]
      case RankingsFetched(rs) => Some(rs)
      case RankingsPosted(rs) => Some(rs)
      case Unrelated => LastPayload(actions[..|actions| - 1])
  }

  /** The page always shows the last list the server sent, whether it came
      from a fetch or a post; with none, the list it started with. */
  lemma {:induction false} LastListWins<R>(s: State<R>, actions: seq<Action<R>>)
    ensures LastPayload(actions).Some? ==> ReduceAll(s, actions).list == LastPayload(actions).value
    ensures LastPayload(actions).None? ==> ReduceAll(s, actions) == s
    decreases |actions|
  {
    if |actions| > 0 {
      LastListWins(Reduce(s, actions[0]), actions[1..]);
      if |actions| > 1 {
        assert actions[1..][..|actions[1..]| - 1] == actions[..|actions| - 1][1..];
        LastPayloadFront(actions);
      }
    }
  }

  /** Dropping the first action changes the last payload only when nothing
      after it carries one. */
  lemma {:induction false} LastPayloadFront<R>(actions: seq<Action<R>>)
    requires |actions| > 1
    ensures LastPayload(actions[1..]).Some? ==> LastPayload(actions) == LastPayload(actions[1..])
    ensures LastPayload(actions[1..]).None? ==> LastPayload(actions) == LastPayload([actions[0]])
    decreases |actions|
  {
    var n := |actions|;
    assert actions[1..][n - 2] == actions[n - 1];
    if actions[n - 1].Unrelated? {
      if n > 2 {
        LastPayloadFront(actions[..n - 1]);
        assert actions[..n - 1][1..] == actions[1..][..n - 2];
        assert actions[..n - 1][0] == actions[0];
      } else {
        assert actions[..n - 1] == [actions[0]];
      }
    }
  }
}
