/** The episode-star selection of the admin screen: ticking a star's box
    toggles its id in the selection and sends the whole new selection to the
    backend; loading the episode's stars replaces the selection unless the
    loaded list is null or empty. */
module ManageStars {
  import opened Common
  import opened Models

  function Not(id: StarId): StarId -> bool {
    (x: StarId) => x != id
  }

  /** The new selection of `handleToggleStar`: a selected id is filtered out
      (every occurrence), an unselected one is appended. */
  function Toggle(selected: seq<StarId>, id: StarId): (r: seq<StarId>)
    ensures id in selected ==> id !in r && (forall x :: x in r <==> x in selected && x != id)
    ensures id !in selected ==> r == selected + [id]
    ensures forall x :: x != id ==> (x in r <==> x in selected)
  {
    if id in selected then Filter(selected, Not(id)) else selected + [id]
  }

  /** Removal keeps the order of the remaining ids. */
  lemma ToggleRemovesInOrder(selected: seq<StarId>, id: StarId)
    requires id in selected
    ensures Toggle(selected, id) == Filter(selected, Not(id))
    ensures |Toggle(selected, id)| < |selected|
  {
    FilterShorter(selected, Not(id));
  }

  lemma {:induction false} FilterShorter<T(!new)>(s: seq<T>, p: T -> bool)
    requires exists x :: x in s && !p(x)
    ensures |Filter(s, p)| < |s|
  {
    if !p(s[0]) {
      assert |Filter(s[1..], p)| <= |s[1..]|;
    } else {
      assert exists x :: x in s[1..] && !p(x);
      FilterShorter(s[1..], p);
    }
  }

  /** Toggling the same star twice gives the same set of selected ids. */
  lemma ToggleTwice(selected: seq<StarId>, id: StarId)
    ensures forall x :: x in Toggle(Toggle(selected, id), id) <==> x in selected
  {
  }

  predicate NoDuplicates(s: seq<StarId>) {
    forall i, j :: 0 <= i < j < |s| ==> s[i] != s[j]
  }

  /** A duplicate-free selection stays duplicate-free. */
  lemma {:induction false} ToggleNoDuplicates(selected: seq<StarId>, id: StarId)
    requires NoDuplicates(selected)
    ensures NoDuplicates(Toggle(selected, id))
  {
    if id in selected {
      FilterNoDuplicates(selected, Not(id));
    }
  }

  lemma {:induction false} FilterNoDuplicates(s: seq<StarId>, p: StarId -> bool)
    requires NoDuplicates(s)
    ensures NoDuplicates(Filter(s, p))
  {
    if |s| > 0 {
      assert NoDuplicates(s[1..]) by {
        forall i, j | 0 <= i < j < |s[1..]| ensures s[1..][i] != s[1..][j] {
          assert s[1..][i] == s[i + 1] && s[1..][j] == s[j + 1];
        }
      }
      FilterNoDuplicates(s[1..], p);
      assert s[0] !in s[1..];
      assert Filter(s, p) == (if p(s[0]) then [s[0]] else []) + Filter(s[1..], p);
    }
  }

  /** The update the toggle dispatches: the episode and the ids sent. */
  datatype EpisodeStarsUpdate = EpisodeStarsUpdate(episodeId: EpisodeId, starIds: seq<StarId>)

  /** `handleToggleStar`: the new selection, and the request carrying
      exactly that selection. */
  function HandleToggle(episodeId: EpisodeId, selected: seq<StarId>, id: StarId): (r: (seq<StarId>, EpisodeStarsUpdate))
    ensures r.1 == EpisodeStarsUpdate(episodeId, r.0)
    ensures forall x :: x in r.0 <==> (x in selected <==> x != id)
  {
    var next := Toggle(selected, id);
    (next, EpisodeStarsUpdate(episodeId, next))
  }

  function StarIds(stars: seq<Star>): (r: seq<StarId>)
    ensures |r| == |stars| && forall i :: 0 <= i < |stars| ==> r[i] == stars[i].id
  {
    seq(|stars|, i requires 0 <= i < |stars| => stars[i].id)
  }

  /** The effect on loading the episode's stars: a non-empty list replaces
      the selection with its ids; null or empty leaves the selection. */
  function SyncSelection(selected: seq<StarId>, episodeStars: Option<seq<Star>>): (r: seq<StarId>)
    ensures episodeStars.None? || |episodeStars.value| == 0 ==> r == selected
    ensures episodeStars.Some? && |episodeStars.value| > 0 ==>
      |r| == |episodeStars.value| && forall i :: 0 <= i < |r| ==> r[i] == episodeStars.value[i].id
  {
    match episodeStars
    case Some(stars) => if |stars| > 0 then StarIds(stars) else selected
    case None => selected
  }

  /** After a non-empty list loads, exactly the listed stars are selected,
      so ticking any of them next deselects it. */
  lemma SyncThenToggle(selected: seq<StarId>, stars: seq<Star>)
    requires |stars| > 0
    ensures forall x :: x in SyncSelection(selected, Some(stars)) <==> exists s :: s in stars && s.id == x
    ensures forall s :: s in stars ==> s.id !in Toggle(SyncSelection(selected, Some(stars)), s.id)
  {
    var r := SyncSelection(selected, Some(stars));
    forall s | s in stars ensures s.id in r {
      var i :| 0 <= i < |stars| && stars[i] == s;
      assert r[i] == s.id;
    }
  }
}
