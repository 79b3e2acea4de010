/** The admin page's tabs: the selected tab is the first whose path occurs
    anywhere in the location's pathname, else the first tab; changing tab
    navigates to the chosen tab's path. */
module AdminTabs {
  import opened Common

  datatype Tab = Tab(path: string, caption: string)

  const EpisodesTab := Tab("/admin/episodes", "Episodes")
  const StarsTab := Tab("/admin/stars", "Stars")
  const Tabs: seq<Tab> := [EpisodesTab, StarsTab]

  predicate IsPrefix(p: string, s: string) {
    |p| <= |s| && s[..|p|] == p
  }

  /** `s.includes(p)`. */
  predicate Includes(s: string, p: string)
    decreases |s|
  {
    IsPrefix(p, s) || (|s| > 0 && Includes(s[1..], p))
  }

  /** `p` occurs in `s` starting at position `i`. */
  predicate OccursAt(s: string, p: string, i: int) {
    0 <= i <= |s| - |p| && s[i..i + |p|] == p
  }

  /** Including means occurring at some position. */
  lemma {:induction false} IncludesAt(s: string, p: string)
    ensures Includes(s, p) <==> exists i :: OccursAt(s, p, i)
    decreases |s|
  {
    if |s| > 0 {
      IncludesAt(s[1..], p);
      if Includes(s[1..], p) {
        var i :| OccursAt(s[1..], p, i);
        assert s[1..][i..i + |p|] == s[i + 1..i + 1 + |p|];
        assert OccursAt(s, p, i + 1);
      }
      if IsPrefix(p, s) {
        assert OccursAt(s, p, 0);
      }
      if exists i :: OccursAt(s, p, i) {
        var i :| OccursAt(s, p, i);
        if i > 0 {
          assert s[1..][i - 1..i - 1 + |p|] == s[i..i + |p|];
          assert OccursAt(s[1..], p, i - 1);
        } else {
          assert IsPrefix(p, s);
        }
      }
    } else {
      if IsPrefix(p, s) {
        assert OccursAt(s, p, 0);
      }
      if exists i :: OccursAt(s, p, i) {
        var i :| OccursAt(s, p, i);
        assert IsPrefix(p, s);
      }
    }
  }

  function PathIn(pathname: string): Tab -> bool {
    (t: Tab) => Includes(pathname, t.path)
  }

  /** `tabPaths.find(...) || tabPaths[0]`. */
  function SelectedTab(pathname: string): (t: Tab)
    ensures t in Tabs
    ensures Includes(pathname, EpisodesTab.path) ==> t == EpisodesTab
    ensures !Includes(pathname, EpisodesTab.path) && Includes(pathname, StarsTab.path) ==> t == StarsTab
    ensures !Includes(pathname, EpisodesTab.path) && !Includes(pathname, StarsTab.path) ==> t == EpisodesTab
  {
    match Find(Tabs, PathIn(pathname))
    case None =>
      assert EpisodesTab in Tabs && StarsTab in Tabs;
      Tabs[0]
    case Some(t) => t
  }

  /** `handleTabChange`: the path navigated to. */
  function TabChange(newValue: Tab): (path: string)
    ensures path == newValue.path
  {
    newValue.path
  }

  lemma IncludesSelf(s: string)
    ensures Includes(s, s)
  {
    assert s[..|s|] == s;
  }

  lemma StarsPathExcludesEpisodes()
    ensures !Includes(StarsTab.path, EpisodesTab.path)
  {
    IncludesAt(StarsTab.path, EpisodesTab.path);
  }

  /** Navigating to a tab selects that tab. */
  lemma ChangeThenSelect(t: Tab)
    requires t in Tabs
    ensures SelectedTab(TabChange(t)) == t
  {
    IncludesSelf(t.path);
    StarsPathExcludesEpisodes();
  }
}
