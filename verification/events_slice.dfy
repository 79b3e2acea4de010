/** The client's event store: the event list and the event types. The
    records are kept as the server sent them. */
module EventsSlice {
  datatype State<E, K> = State(list: seq<E>, eventTypes: seq<K>)

  function Initial<E, K>(): State<E, K> {
    State([], [])
  }

  datatype Action<E, K> =
    | EventTypesFetched(eventTypes: seq<K>)
    | EventsFetched(events: seq<E>)
    | EpisodeEventsFetched(events: seq<E>)
    | EventCreated(event: E)
    | Unrelated

  function Reduce<E, K>(s: State<E, K>, a: Action<E, K>): (r: State<E, K>)
    ensures a.EventTypesFetched? ==> r.eventTypes == a.eventTypes && r.list == s.list
    ensures a.EventsFetched? ==> r.list == a.events && r.eventTypes == s.eventTypes
    ensures a.EpisodeEventsFetched? ==> r.list == a.events && r.eventTypes == s.eventTypes
    ensures a.EventCreated? ==> r.list == s.list + [a.event] && r.eventTypes == s.eventTypes
    ensures a.Unrelated? ==> r == s
  {
    match a
    case EventTypesFetched(types) => s.(eventTypes := types)
    case EventsFetched(events) => s.(list := events)
    case EpisodeEventsFetched(events) => s.(list := events)
    case EventCreated(event) => s.(list := s.list + [event])
    case Unrelated => s
  }

  /** Fetching all events and fetching one episode's events land in the
      same place: only the payload decides the state. */
  lemma BothFetchesAgree<E, K>(s: State<E, K>, events: seq<E>)
    ensures Reduce(s, EventsFetched(events)) == Reduce(s, EpisodeEventsFetched(events))
  {
  }

  function ReduceAll<E, K>(s: State<E, K>, actions: seq<Action<E, K>>): State<E, K>
    decreases |actions|
  {
    if |actions| == 0 then s else ReduceAll(Reduce(s, actions[0]), actions[1..])
  }

  /** The two lists are independent: a run of actions without an event-type
      fetch keeps the event types, and one with only event-type fetches
      keeps the event list. */
  lemma {:induction false} ListsIndependent<E, K>(s: State<E, K>, actions: seq<Action<E, K>>)
    ensures (forall i :: 0 <= i < |actions| ==> !actions[i].EventTypesFetched?) ==>
      ReduceAll(s, actions).eventTypes == s.eventTypes
    ensures (forall i :: 0 <= i < |actions| ==> actions[i].EventTypesFetched? || actions[i].Unrelated?) ==>
      ReduceAll(s, actions).list == s.list
    decreases |actions|
  {
    if |actions| > 0 {
      ListsIndependent(Reduce(s, actions[0]), actions[1..]);
      assert forall i :: 0 <= i < |actions[1..]| ==> actions[1..][i] == actions[i + 1];
    }
  }
}
