/** The client's star store: the list of stars. */
module StarsSlice {
  import opened Common
  import opened Models

  datatype State = State(list: seq<Star>)

  const Initial := State([])

  datatype Action = StarsFetched(stars: seq<Star>) | StarCreated(star: Star) | StarUpdated(star: Star) | Unrelated

  function SameId(id: StarId): Star -> bool {
    (x: Star) => x.id == id
  }

  function Reduce(s: State, a: Action): (r: State)
    ensures a.StarsFetched? ==> r.list == a.stars
    ensures a.StarCreated? ==> r.list == s.list + [a.star]
    ensures a.StarUpdated? ==>
      && |r.list| == |s.list|
      && (forall j :: 0 <= j < |s.list| ==>
            || r.list[j] == s.list[j]
            || (s.list[j].id == a.star.id && r.list[j] == a.star && forall i :: 0 <= i < j ==> s.list[i].id != a.star.id))
      && ((forall x :: x in s.list ==> x.id != a.star.id) ==> r == s)
      && ((exists x :: x in s.list && x.id == a.star.id) ==> a.star in r.list)
      && (forall k :: 0 <= k < |s.list| && s.list[k].id == a.star.id && (forall i :: 0 <= i < k ==> s.list[i].id != a.star.id) ==>
            r.list[k] == a.star)
    ensures a.Unrelated? ==> r == s
  {
    match a
    case StarsFetched(stars) => State(stars)
    case StarCreated(star) => State(s.list + [star])
    case StarUpdated(star) => State(ReplaceFirst(s.list, SameId(star.id), star))
    case Unrelated => s
  }

  /** With distinct ids, an update replaces exactly the star with that id. */
  lemma UpdateReplacesOne(s: State, star: Star)
    requires forall i, j :: 0 <= i < j < |s.list| ==> s.list[i].id != s.list[j].id
    ensures var r := Reduce(s, StarUpdated(star)).list;
      |r| == |s.list| && forall j :: 0 <= j < |r| ==> r[j] == if s.list[j].id == star.id then star else s.list[j]
  {
    var r := Reduce(s, StarUpdated(star)).list;
    forall j | 0 <= j < |r| ensures r[j] == if s.list[j].id == star.id then star else s.list[j] {
      if s.list[j].id == star.id {
        var k := FirstIndex(s.list, SameId(star.id)).value;
        assert k == j;
      }
    }
  }
}
