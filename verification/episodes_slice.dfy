/** The client's episode store: a reducer over the five request thunks'
    pending, fulfilled and rejected actions. */
module EpisodesSlice {
  import opened Common
  import opened Models

  datatype State = State(list: seq<Episode>, events: seq<Event>, currentEpisode: Option<Episode>,
                         loading: bool, error: Option<string>)

  const Initial := State([], [], None, false, None)

  datatype Thunk = FetchEpisodes | FetchEventsForEpisode | CreateEpisode | SetCurrentEpisode | FetchCurrentEpisode

  /** The actions the slice reacts to, and any other action. A rejection
      carries the error's message, which is always a string. */
  datatype Action =
    | Pending(thunk: Thunk)
    | Rejected(thunk: Thunk, message: string)
    | EpisodesFetched(episodes: seq<Episode>)
    | EventsFetched(events: seq<Event>)
    | EpisodeCreated(episode: Episode)
    | CurrentSet(current: Option<Episode>)
    | CurrentFetched(current: Option<Episode>)
    | Unrelated

  predicate Settles(a: Action) {
    !a.Pending? && !a.Unrelated?
  }

  function Reduce(s: State, a: Action): (r: State)
    ensures a.Pending? ==> r == s.(loading := true)
    ensures Settles(a) ==> !r.loading
    ensures a.Rejected? ==> r == s.(loading := false, error := Some(a.message))
    ensures a.EpisodeCreated? ==> r.list == s.list + [a.episode] && r.events == s.events && r.currentEpisode == s.currentEpisode
    ensures a.CurrentSet? || a.CurrentFetched? ==> r.list == s.list && r.events == s.events
    ensures a.CurrentSet? ==> r.currentEpisode == a.current
    ensures a.CurrentFetched? ==> r.currentEpisode == a.current
    ensures a.EpisodesFetched? ==> r.list == a.episodes && r.events == s.events && r.currentEpisode == s.currentEpisode
    ensures a.EventsFetched? ==> r.events == a.events && r.list == s.list && r.currentEpisode == s.currentEpisode
    ensures !a.Rejected? ==> r.error == s.error
    ensures a.Unrelated? ==> r == s
  {
    match a
    case Pending(_) => s.(loading := true)
    case Rejected(_, message) => s.(loading := false, error := Some(message))
    case EpisodesFetched(episodes) => s.(loading := false, list := episodes)
    case EventsFetched(events) => s.(loading := false, events := events)
    case EpisodeCreated(episode) => s.(loading := false, list := s.list + [episode])
    case CurrentSet(current) => s.(loading := false, currentEpisode := current)
    case CurrentFetched(current) => s.(loading := false, currentEpisode := current)
    case Unrelated => s
  }

  function ReduceAll(s: State, actions: seq<Action>): State
    decreases |actions|
  {
    if |actions| == 0 then s else ReduceAll(Reduce(s, actions[0]), actions[1..])
  }

  /** No action ever clears a recorded error; the error shown is the last
      rejection's message. */
  lemma {:induction false} ErrorNeverCleared(s: State, actions: seq<Action>)
    requires s.error.Some?
    ensures ReduceAll(s, actions).error.Some?
    decreases |actions|
  {
    if |actions| > 0 {
      ErrorNeverCleared(Reduce(s, actions[0]), actions[1..]);
    }
  }

  /** From the initial state the error stays null until some action is a
      rejection. */
  lemma {:induction false} NoRejectionNoError(s: State, actions: seq<Action>)
    requires s.error.None?
    requires forall i :: 0 <= i < |actions| ==> !actions[i].Rejected?
    ensures ReduceAll(s, actions).error.None?
    decreases |actions|
  {
    if |actions| > 0 {
      NoRejectionNoError(Reduce(s, actions[0]), actions[1..]);
    }
  }

  /** Creating episodes one after another appends them in order. */
  lemma {:induction false} CreatesAppend(s: State, created: seq<Episode>)
    ensures ReduceAll(s, seq(|created|, i requires 0 <= i < |created| => EpisodeCreated(created[i]))).list
      == s.list + created
    decreases |created|
  {
    var actions := seq(|created|, i requires 0 <= i < |created| => EpisodeCreated(created[i]));
    if |created| > 0 {
      var next := Reduce(s, actions[0]);
      assert actions[1..] == seq(|created[1..]|, i requires 0 <= i < |created[1..]| => EpisodeCreated(created[1..][i]));
      CreatesAppend(next, created[1..]);
      assert s.list + [created[0]] + created[1..] == s.list + created;
    }
  }
}
