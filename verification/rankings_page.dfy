/** The rankings page's reorder arrows: an item moves one place up or down
    by swapping with its neighbour, after which every item is renumbered
    with its 1-based position. */
module RankingsPage {
  import opened Common
  import opened Models

  /** A ranking as the page holds it: its document id, the star and the rank. */
  datatype Item = Item(id: string, starId: StarId, rank: int)

  function ItemIs(id: string): Item -> bool {
    (it: Item) => it.id == id
  }

  /** The items with the rank blanked: what a move must only permute. */
  function Unranked(items: seq<Item>): (r: seq<Item>)
    ensures |r| == |items| && forall i :: 0 <= i < |items| ==> r[i] == items[i].(rank := 0)
  {
    seq(|items|, i requires 0 <= i < |items| => items[i].(rank := 0))
  }

  /** Every item's rank set to its 1-based position. */
  function Renumber(items: seq<Item>): (r: seq<Item>)
    ensures |r| == |items| && forall i :: 0 <= i < |items| ==> r[i] == items[i].(rank := i + 1)
  {
    seq(|items|, i requires 0 <= i < |items| => items[i].(rank := i + 1))
  }

  function Swap<T>(s: seq<T>, i: nat, j: nat): (r: seq<T>)
    requires i < |s| && j < |s|
    ensures |r| == |s| && r[i] == s[j] && r[j] == s[i]
    ensures forall k :: 0 <= k < |s| && k != i && k != j ==> r[k] == s[k]
    ensures multiset(r) == multiset(s)
  {
    s[i := s[j]][j := s[i]]
  }

  predicate Present(items: seq<Item>, id: string) {
    exists k :: 0 <= k < |items| && items[k].id == id
  }

  /** Position of the first item with the id. */
  function IndexOf(items: seq<Item>, id: string): (k: nat)
    requires Present(items, id)
    ensures k < |items| && items[k].id == id
    ensures forall j :: 0 <= j < k ==> items[j].id != id
  {
    FirstIndex(items, ItemIs(id)).value
  }

  /** The neighbour's position: "up" is the previous one, any other
      direction the next one. */
  function Target(items: seq<Item>, id: string, direction: string): int
    requires Present(items, id)
  {
    if direction == "up" then IndexOf(items, id) - 1 else IndexOf(items, id) + 1
  }

  /** `handleMove(item, direction)`, for an item of the list (the arrows are
      drawn only next to list items). A neighbour outside the list leaves
      the list as it was; otherwise the two swap and all are renumbered. */
  function Move(items: seq<Item>, id: string, direction: string): (r: seq<Item>)
    requires Present(items, id)
    ensures |r| == |items|
    ensures multiset(Unranked(r)) == multiset(Unranked(items))
    ensures !(0 <= Target(items, id, direction) < |items|) ==> r == items
    ensures 0 <= Target(items, id, direction) < |items| ==>
      var from, to := IndexOf(items, id), Target(items, id, direction);
      && (forall i :: 0 <= i < |r| ==> r[i].rank == i + 1)
      && r[to] == items[from].(rank := to + 1)
      && r[from] == items[to].(rank := from + 1)
      && (forall i :: 0 <= i < |r| && i != from && i != to ==> r[i] == items[i].(rank := i + 1))
  {
    var from, to := IndexOf(items, id), Target(items, id, direction);
    if 0 <= to < |items| then
      var r := Renumber(Swap(items, from, to));
      assert Unranked(r) == Swap(Unranked(items), from, to);
      r
    else items
  }

  /** Moving the first item up, or the last item down, changes nothing. */
  lemma MoveAtEdges(items: seq<Item>)
    requires |items| > 0
    ensures Move(items, items[0].id, "up") == items
    ensures Present(items, items[|items| - 1].id) && (forall j :: 0 <= j < |items| - 1 ==> items[j].id != items[|items| - 1].id)
      ==> Move(items, items[|items| - 1].id, "down") == items
  {
    assert Present(items, items[|items| - 1].id);
  }

  /** Whatever a direction other than "up" says, it moves the item down. */
  lemma MoveOtherIsDown(items: seq<Item>, id: string, direction: string)
    requires Present(items, id) && direction != "up"
    ensures Move(items, id, direction) == Move(items, id, "down")
  {
  }

  predicate UniqueIds(items: seq<Item>) {
    forall i, j :: 0 <= i < j < |items| ==> items[i].id != items[j].id
  }

  /** With distinct ids, moving an item up and then down again gives the
      original order back, renumbered. */
  lemma UpThenDown(items: seq<Item>, id: string)
    requires UniqueIds(items) && Present(items, id) && IndexOf(items, id) > 0
    ensures var up := Move(items, id, "up");
      Present(up, id) && Move(up, id, "down") == Renumber(items)
  {
    var k := IndexOf(items, id);
    var up := Move(items, id, "up");
    assert up[k - 1].id == id;
    assert Present(up, id);
    forall j | 0 <= j < k - 1 ensures up[j].id != id {
      assert up[j] == items[j].(rank := j + 1);
    }
    assert IndexOf(up, id) == k - 1;
    var down := Move(up, id, "down");
    assert |down| == |Renumber(items)|;
    forall i | 0 <= i < |items| ensures down[i] == Renumber(items)[i] {
    }
  }
}
