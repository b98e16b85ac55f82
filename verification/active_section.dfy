/** The `useActiveSection` hook of my-app/src/hooks/useActiveSection.ts: which navigation
    section the header highlights. An observer callback picks, among the sections it reports
    as intersecting the viewport band, the one nearest the top; on first observation the first
    section present on the page is chosen; and the band is described by a `rootMargin` string
    derived from the header height. */
module ActiveSection {
  import opened Wrappers
  import Text
  import SiteConstants

  /** One `IntersectionObserverEntry`: the observed element's id, whether it intersects the
      band, and `boundingClientRect.top` in whole pixels. */
  datatype Entry = Entry(id: string, isIntersecting: bool, top: int)

  /** `entries.filter(entry => entry.isIntersecting)`. */
  function Visible(entries: seq<Entry>): (r: seq<Entry>)
    ensures |r| <= |entries|
  {
    if entries == [] then []
    else (if entries[0].isIntersecting then [entries[0]] else []) + Visible(entries[1..])
  }

  /** The entries kept are exactly the intersecting ones. */
  lemma {:induction false} VisibleMembers(entries: seq<Entry>)
    ensures forall e :: e in Visible(entries) <==> e in entries && e.isIntersecting
  {
    if entries != [] {
      VisibleMembers(entries[1..]);
      assert entries == [entries[0]] + entries[1..];
    }
  }

  /** Inserting e into a list ordered by top, ahead of every entry whose top is not smaller:
      one step of a stable sort in which e comes first in the input. */
  function Insert(e: Entry, sorted: seq<Entry>): (r: seq<Entry>)
    ensures |r| == |sorted| + 1
    ensures multiset(r) == multiset(sorted) + multiset{e}
  {
    if sorted == [] || e.top <= sorted[0].top then [e] + sorted
    else
      assert sorted == [sorted[0]] + sorted[1..];
      [sorted[0]] + Insert(e, sorted[1..])
  }

  /** The entry that ends up first after an insertion. */
  lemma InsertHead(e: Entry, sorted: seq<Entry>)
    ensures Insert(e, sorted)[0] == if sorted == [] || e.top <= sorted[0].top then e else sorted[0]
  {
  }

  /** `es.sort((a, b) => a.top - b.top)`: ascending by top, entries with equal tops keeping
      their order, as the stable sort of ECMAScript 2019 and later does. */
  function SortByTop(es: seq<Entry>): (r: seq<Entry>)
    ensures |r| == |es|
    ensures multiset(r) == multiset(es)
  {
    if es == [] then []
    else
      assert es == [es[0]] + es[1..];
      Insert(es[0], SortByTop(es[1..]))
  }

  /** Ascending by top. */
  ghost predicate AscendingTop(es: seq<Entry>)
  {
    forall i, j :: 0 <= i < j < |es| ==> es[i].top <= es[j].top
  }

  lemma {:induction false} InsertAscending(e: Entry, sorted: seq<Entry>)
    requires AscendingTop(sorted)
    ensures AscendingTop(Insert(e, sorted))
  {
    if sorted != [] && e.top > sorted[0].top {
      InsertAscending(e, sorted[1..]);
      var r := Insert(e, sorted);
      var tail := Insert(e, sorted[1..]);
      assert r == [sorted[0]] + tail;
      forall k | 0 <= k < |tail|
        ensures sorted[0].top <= tail[k].top
      {
        assert tail[k] in multiset(tail);
        assert tail[k] == e || tail[k] in multiset(sorted[1..]);
        if tail[k] != e {
          var m :| 0 <= m < |sorted[1..]| && sorted[1..][m] == tail[k];
          assert sorted[m + 1] == tail[k];
        }
      }
    }
  }

  /** The sort orders its result by top. */
  lemma {:induction false} SortAscending(es: seq<Entry>)
    ensures AscendingTop(SortByTop(es))
  {
    if es != [] {
      SortAscending(es[1..]);
      InsertAscending(es[0], SortByTop(es[1..]));
    }
  }

  /** The position the header should pick, stated without sorting: an intersecting entry
      whose top is smallest among the intersecting ones, and the earliest such entry; None
      when no entry intersects. */
  function FirstTopmost(entries: seq<Entry>): (r: Option<nat>)
    ensures r.None? <==> forall k :: 0 <= k < |entries| ==> !entries[k].isIntersecting
    ensures r.Some? ==> r.value < |entries| && entries[r.value].isIntersecting
    ensures r.Some? ==> forall k :: 0 <= k < |entries| && entries[k].isIntersecting ==>
                          entries[r.value].top <= entries[k].top
    ensures r.Some? ==> forall k :: 0 <= k < r.value && entries[k].isIntersecting ==>
                          entries[r.value].top < entries[k].top
  {
    if entries == [] then None
    else
      var rest := FirstTopmost(entries[1..]);
      assert forall k :: 1 <= k < |entries| ==> entries[k] == entries[1..][k - 1];
      if !entries[0].isIntersecting then
        (if rest.None? then None else Some(rest.value + 1))
      else if rest.None? || entries[0].top <= entries[1..][rest.value].top then Some(0)
      else Some(rest.value + 1)
  }

  /** The head of the sorted intersecting entries is the entry at position p. */
  ghost predicate HeadAt(entries: seq<Entry>, p: Option<nat>)
  {
    var v := SortByTop(Visible(entries));
    (v == [] <==> p.None?) && (p.Some? ==> p.value < |entries| && v[0] == entries[p.value])
  }

  /** One step of FirstTopmost: the first entry, if it intersects and is not below the best
      of the rest, else the best of the rest, shifted by one. */
  lemma FirstTopmostStep(entries: seq<Entry>)
    requires entries != []
    ensures var rest := FirstTopmost(entries[1..]);
            var r := FirstTopmost(entries);
            var firstWins := entries[0].isIntersecting && (rest.None? || entries[0].top <= entries[1..][rest.value].top);
            (firstWins ==> r.Some? && r.value == 0) &&
            (!firstWins && rest.Some? ==> r.Some? && r.value == rest.value + 1) &&
            (!firstWins && rest.None? ==> r.None?)
  {
  }

  /** An intersecting first entry goes to the front of the sorted list exactly when
      FirstTopmost picks it. */
  lemma HeadStepIntersecting(entries: seq<Entry>)
    requires entries != [] && entries[0].isIntersecting
    requires HeadAt(entries[1..], FirstTopmost(entries[1..]))
    ensures HeadAt(entries, FirstTopmost(entries))
  {
    var rest := entries[1..];
    var e := entries[0];
    var vs := SortByTop(Visible(rest));
    var v := SortByTop(Visible(entries));
    assert Visible(entries) == [e] + Visible(rest);
    assert v == Insert(e, vs);
    InsertHead(e, vs);
    FirstTopmostStep(entries);
    var p := FirstTopmost(rest);
    if p.None? {
      assert v[0] == e && FirstTopmost(entries).value == 0;
    } else if e.top <= rest[p.value].top {
      assert v[0] == e && FirstTopmost(entries).value == 0;
    } else {
      assert v[0] == rest[p.value] == entries[p.value + 1];
      assert FirstTopmost(entries).value == p.value + 1;
    }
  }

  /** A first entry that does not intersect changes neither the sorted list nor the pick,
      beyond the shift by one. */
  lemma HeadStepHidden(entries: seq<Entry>)
    requires entries != [] && !entries[0].isIntersecting
    requires HeadAt(entries[1..], FirstTopmost(entries[1..]))
    ensures HeadAt(entries, FirstTopmost(entries))
  {
    var rest := entries[1..];
    assert Visible(entries) == Visible(rest);
    FirstTopmostStep(entries);
    var p := FirstTopmost(rest);
    if p.Some? {
      assert entries[p.value + 1] == rest[p.value];
    }
  }

  /** The head of the sorted intersecting entries is the entry FirstTopmost names. */
  lemma {:induction false} SortedHeadIsFirstTopmost(entries: seq<Entry>)
    ensures HeadAt(entries, FirstTopmost(entries))
  {
    if entries != [] {
      SortedHeadIsFirstTopmost(entries[1..]);
      if entries[0].isIntersecting {
        HeadStepIntersecting(entries);
      } else {
        HeadStepHidden(entries);
      }
    }
  }

  /** The observer callback: the id of the first of the intersecting entries sorted by top,
      or the current section when none intersects. */
  function OnEntries(active: string, entries: seq<Entry>): (r: string)
  {
    var visibleSections := SortByTop(Visible(entries));
    if |visibleSections| > 0 then visibleSections[0].id else active
  }

  /** The callback picks the earliest of the intersecting entries nearest the top; a
      non-intersecting entry is never picked; with nothing intersecting the section stays. */
  lemma OnEntriesChoosesTopmost(active: string, entries: seq<Entry>)
    ensures FirstTopmost(entries).Some? ==> OnEntries(active, entries) == entries[FirstTopmost(entries).value].id
    ensures FirstTopmost(entries).None? ==> OnEntries(active, entries) == active
  {
    SortedHeadIsFirstTopmost(entries);
  }

  /** Whatever the callback picks is the id of an intersecting entry, or the old section. */
  lemma OnEntriesPicksIntersecting(active: string, entries: seq<Entry>)
    ensures OnEntries(active, entries) == active ||
            exists k :: 0 <= k < |entries| && entries[k].isIntersecting && entries[k].id == OnEntries(active, entries)
  {
    OnEntriesChoosesTopmost(active, entries);
  }

  /** `sectionIds.map(id => document.getElementById(id)).filter(el => el !== null)`, by id:
      the ids that have an element on the page, here the set `page`. */
  function Existing(sectionIds: seq<string>, page: set<string>): (r: seq<string>)
    ensures |r| <= |sectionIds|
  {
    if sectionIds == [] then []
    else (if sectionIds[0] in page then [sectionIds[0]] else []) + Existing(sectionIds[1..], page)
  }

  /** The ids kept are exactly the listed ids that have an element. */
  lemma {:induction false} ExistingMembers(sectionIds: seq<string>, page: set<string>)
    ensures forall id :: id in Existing(sectionIds, page) <==> id in sectionIds && id in page
  {
    if sectionIds != [] {
      ExistingMembers(sectionIds[1..], page);
      assert sectionIds == [sectionIds[0]] + sectionIds[1..];
    }
  }

  /** The filter works list piece by list piece, so the ids it keeps stay in their order. */
  lemma {:induction false} ExistingAppend(a: seq<string>, b: seq<string>, page: set<string>)
    ensures Existing(a + b, page) == Existing(a, page) + Existing(b, page)
  {
    if a == [] {
      assert a + b == b;
    } else {
      var h := if a[0] in page then [a[0]] else [];
      assert (a + b)[0] == a[0] && (a + b)[1..] == a[1..] + b;
      ExistingAppend(a[1..], b, page);
      calc {
        Existing(a + b, page);
        h + Existing(a[1..] + b, page);
        h + (Existing(a[1..], page) + Existing(b, page));
        (h + Existing(a[1..], page)) + Existing(b, page);
        Existing(a, page) + Existing(b, page);
      }
    }
  }

  /** A list whose ids all have elements is kept whole. */
  lemma {:induction false} ExistingAllPresent(sectionIds: seq<string>, page: set<string>)
    requires forall k :: 0 <= k < |sectionIds| ==> sectionIds[k] in page
    ensures Existing(sectionIds, page) == sectionIds
  {
    if sectionIds != [] {
      ExistingAllPresent(sectionIds[1..], page);
    }
  }

  /** The first id kept is the first id of the list that has an element. */
  lemma {:induction false} ExistingHead(sectionIds: seq<string>, page: set<string>)
    requires Existing(sectionIds, page) != []
    ensures exists k :: 0 <= k < |sectionIds| && sectionIds[k] == Existing(sectionIds, page)[0] &&
                        sectionIds[k] in page &&
                        forall j :: 0 <= j < k ==> sectionIds[j] !in page
  {
    if sectionIds[0] !in page {
      var rest := sectionIds[1..];
      ExistingHead(rest, page);
      var k :| 0 <= k < |rest| && rest[k] == Existing(rest, page)[0] && rest[k] in page &&
               forall j :: 0 <= j < k ==> rest[j] !in page;
      assert sectionIds[k + 1] == rest[k];
      assert forall j :: 1 <= j < k + 1 ==> sectionIds[j] == rest[j - 1];
    }
  }

  /** "Set initial active section": with no section chosen yet and some section on the page,
      the first present one; otherwise the choice as it is. */
  function Initial(active: string, sectionIds: seq<string>, page: set<string>): (r: string)
  {
    var sections := Existing(sectionIds, page);
    if |sections| > 0 && active == "" then sections[0] else active
  }

  /** The initial choice is the first id of the list that is on the page, when nothing is
      chosen yet; a choice already made, or a page without any of the sections, is kept. */
  lemma InitialIsFirstPresent(active: string, sectionIds: seq<string>, page: set<string>)
    ensures active != "" ==> Initial(active, sectionIds, page) == active
    ensures (forall k :: 0 <= k < |sectionIds| ==> sectionIds[k] !in page) ==> Initial(active, sectionIds, page) == active
    ensures active == "" && (exists k :: 0 <= k < |sectionIds| && sectionIds[k] in page) ==>
              exists k :: 0 <= k < |sectionIds| && sectionIds[k] == Initial(active, sectionIds, page) &&
                          sectionIds[k] in page && forall j :: 0 <= j < k ==> sectionIds[j] !in page
  {
    var sections := Existing(sectionIds, page);
    ExistingMembers(sectionIds, page);
    if sections != [] {
      assert sections[0] in sections;
      ExistingHead(sectionIds, page);
    }
  }

  /** The `rootMargin` option: the band starts HEADER_HEIGHT + 20 pixels below the top of
      the viewport and ends 60% above its bottom. */
  function RootMargin(headerHeight: nat): (r: string)
  {
    "-" + Text.NatToString(headerHeight + 20) + "px 0px -60% 0px"
  }

  /** The top offset in the margin reads back as the header height plus 20. */
  lemma RootMarginTopOffset(headerHeight: nat)
    ensures var r := RootMargin(headerHeight);
            var n := |Text.NatToString(headerHeight + 20)|;
            1 + n + 15 == |r| && r[0] == '-' && r[1 + n..] == "px 0px -60% 0px" &&
            (forall i :: 1 <= i < 1 + n ==> '0' <= r[i] <= '9') &&
            Text.DigitsValue(r[1..1 + n]) == headerHeight + 20
  {
    var digits := Text.NatToString(headerHeight + 20);
    var r := RootMargin(headerHeight);
    assert r[1..1 + |digits|] == digits;
    Text.NatToStringValue(headerHeight + 20);
  }

  /** With the site's 72-pixel header the margin is "-92px 0px -60% 0px". */
  lemma SiteRootMargin()
    ensures RootMargin(SiteConstants.HeaderHeight) == "-92px 0px -60% 0px"
  {
    assert Text.NatToString(92) == "92";
  }

  /** The header's section ids, `NAV_ITEMS.map(item => item.id)`. */
  const NavIds: seq<string> := ["home", "solutions", "blueprint", "services", "packages", "projects", "why", "faq", "contact"]

  /** The ids of the sections the home page renders. */
  const PageIds: set<string> := {"home", "solutions", "blueprint", "services", "packages", "testimonials", "why", "faq", "contact"}

  /** The page has an element for every navigation id except "projects". */
  ghost predicate AllButProjects(page: set<string>)
  {
    forall k :: 0 <= k < |NavIds| ==> (NavIds[k] in page <==> NavIds[k] != "projects")
  }

  /** The home page renders every navigation section except "projects": its testimonials
      section is called "testimonials". */
  lemma HomePageLacksProjects()
    ensures AllButProjects(PageIds)
  {
  }

  lemma ExistingOne(x: string, page: set<string>)
    ensures Existing([x], page) == if x in page then [x] else []
  {
  }

  /** An id without an element in front of ids that all have one is dropped. */
  lemma ExistingDropsHead(x: string, after: seq<string>, page: set<string>)
    requires forall k :: 0 <= k < |after| ==> after[k] in page
    requires x !in page
    ensures Existing([x] + after, page) == after
  {
    ExistingAppend([x], after, page);
    ExistingOne(x, page);
    ExistingAllPresent(after, page);
  }

  /** When one id has no element and all the others do, the filter drops exactly that id. */
  lemma ExistingDropsOne(before: seq<string>, x: string, after: seq<string>, page: set<string>)
    requires forall k :: 0 <= k < |before| ==> before[k] in page
    requires forall k :: 0 <= k < |after| ==> after[k] in page
    requires x !in page
    ensures Existing(before + [x] + after, page) == before + after
  {
    var rest := [x] + after;
    assert before + [x] + after == before + rest;
    ExistingDropsHead(x, after, page);
    ExistingAppend(before, rest, page);
    ExistingAllPresent(before, page);
  }

  /** The navigation ids around "projects". */
  lemma NavIdsAroundProjects()
    ensures NavIds == ["home", "solutions", "blueprint", "services", "packages"] + ["projects"] + ["why", "faq", "contact"]
  {
  }

  /** A page with every navigation section but "projects" has the five before it and the
      three after it, and not "projects". */
  lemma NavPresence(page: set<string>)
    requires AllButProjects(page)
    ensures forall k :: 0 <= k < 5 ==> ["home", "solutions", "blueprint", "services", "packages"][k] in page
    ensures forall k :: 0 <= k < 3 ==> ["why", "faq", "contact"][k] in page
    ensures "projects" !in page
  {
    assert NavIds[5] == "projects";
    assert forall k :: 0 <= k < 5 ==> ["home", "solutions", "blueprint", "services", "packages"][k] == NavIds[k];
    assert forall k :: 0 <= k < 3 ==> ["why", "faq", "contact"][k] == NavIds[k + 6];
  }

  /** With "projects" missing from the page, the header observes the other eight sections
      in their order, and the first one, "home", is the initial choice. */
  lemma NavSectionsOnPage(page: set<string>)
    requires AllButProjects(page)
    ensures Existing(NavIds, page) == ["home", "solutions", "blueprint", "services", "packages", "why", "faq", "contact"]
    ensures Initial("", NavIds, page) == "home"
  {
    NavIdsAroundProjects();
    NavPresence(page);
    ExistingDropsOne(["home", "solutions", "blueprint", "services", "packages"], "projects", ["why", "faq", "contact"], page);
  }

  /** The `activeSection` state of the hook. */
  class SectionTracker {
    var activeSection: string

    /** `useState<string>("")`: nothing highlighted at first. */
    constructor()
      ensures activeSection == ""
    {
      activeSection := "";
    }

    /** The effect body after the observer starts: choose the first present section if none
        is chosen yet. */
    method SetInitial(sectionIds: seq<string>, page: set<string>)
      modifies this
      ensures activeSection == Initial(old(activeSection), sectionIds, page)
    {
      var sections := Existing(sectionIds, page);
      if |sections| > 0 && activeSection == "" {
        activeSection := sections[0];
      }
    }

    /** One observer callback with its batch of entries. */
    method Observe(entries: seq<Entry>)
      modifies this
      ensures activeSection == OnEntries(old(activeSection), entries)
    {
      var visibleSections := SortByTop(Visible(entries));
      if |visibleSections| > 0 {
        activeSection := visibleSections[0].id;
      }
    }
  }
}
