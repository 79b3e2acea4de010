/** The client's user store: the user list (plain users, or users with their
    rankings for an episode), the session user's balance history, and the
    registration's loading and error flags. Fields the initial state leaves
    out (`loading`, `error`, `user`, `sessionToken`) start as None; `error`
    is None both before any request and when cleared to null. */
module UsersSlice {
  import opened Common
  import opened Home

  datatype State<U, P> = State(list: seq<U>, userBalanceHistory: seq<BalanceEntry>, loading: Option<bool>,
                               error: Option<string>, user: Option<P>, sessionToken: Option<string>)

  function Initial<U, P>(): State<U, P> {
    State([], [], None, None, None, None)
  }

  /** The two thunks that track loading and error. */
  datatype Thunk = Register | BalanceHistory

  datatype Action<U, P> =
    | UsersFetched(users: seq<U>)
    | UsersWithRankingsFetched(users: seq<U>)
    | Pending(thunk: Thunk)
    | Registered(payload: P)
    | HistoryFetched(history: seq<BalanceEntry>)
    | Rejected(thunk: Thunk, message: string)
    | Unrelated

  function Reduce<U, P>(s: State<U, P>, a: Action<U, P>): (r: State<U, P>)
    ensures a.UsersFetched? || a.UsersWithRankingsFetched? ==> r == s.(list := a.users)
    ensures a.Pending? ==> r == s.(loading := Some(true), error := None)
    ensures a.Registered? ==> r == s.(user := Some(a.payload), sessionToken := None, loading := Some(false))
    ensures a.HistoryFetched? ==> r == s.(userBalanceHistory := a.history, loading := Some(false))
    ensures a.Rejected? ==> r == s.(loading := Some(false), error := Some(a.message))
    ensures a.Unrelated? ==> r == s
  {
    match a
    case UsersFetched(users) => s.(list := users)
    case UsersWithRankingsFetched(users) => s.(list := users)
    case Pending(_) => s.(loading := Some(true), error := None)
    // the fulfilled action carries no sessionToken, so the field is set to undefined
    case Registered(p) => s.(user := Some(p), sessionToken := None, loading := Some(false))
    case HistoryFetched(h) => s.(userBalanceHistory := h, loading := Some(false))
    case Rejected(_, m) => s.(loading := Some(false), error := Some(m))
    case Unrelated => s
  }

  function ReduceAll<U, P>(s: State<U, P>, actions: seq<Action<U, P>>): State<U, P>
    decreases |actions|
  {
    if |actions| == 0 then s else ReduceAll(Reduce(s, actions[0]), actions[1..])
  }

  /** After any run of actions that includes a registration, no session token
      is stored: nothing but registration writes the field, and it writes
      undefined. */
  lemma {:induction false} NoTokenStored<U, P>(s: State<U, P>, actions: seq<Action<U, P>>)
    requires s.sessionToken.None?
    ensures ReduceAll(s, actions).sessionToken.None?
    decreases |actions|
  {
    if |actions| > 0 {
      NoTokenStored(Reduce(s, actions[0]), actions[1..]);
    }
  }

  /** Once the balance history arrives, the home screen's balance is that of
      the fetched history. */
  lemma HistoryFetchedBalance<U, P>(s: State<U, P>, history: seq<BalanceEntry>)
    ensures Balance(Reduce(s, HistoryFetched(history)).userBalanceHistory) == StartingBalance + Sum(history)
  {
  }
}
