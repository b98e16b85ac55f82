/** The category switcher of my-app/src/components/sections/Services.tsx: the static list of
    service categories, the `activeCategory` state that a tab click toggles, the filter that
    picks the active category for the detail panel, and the condition for the image panel. */
module Services {
  import opened Wrappers

  /** One entry of `serviceCategories`; `image` is the optional picture path. */
  datatype Category = Category(id: string, title: string, image: Option<string>)

  /** `serviceCategories`, in display order. */
  const Categories: seq<Category> := [
    Category("surveillance", "Surveillance & CCTV Solutions", None),
    Category("networking", "Networking Solutions", None),
    Category("access-control", "Biometric & Access Control", None),
    Category("maintenance", "Technical Support & Maintenance", None),
    Category("consultancy", "Consultancy", None),
    Category("solar", "Solar Energy Solutions", Some("/Solar/installation.jpg"))
  ]

  /** No id is shared by two categories. */
  ghost predicate UniqueIds(cs: seq<Category>)
  {
    forall i, j :: 0 <= i < j < |cs| ==> cs[i].id != cs[j].id
  }

  /** Some category of cs has this id. */
  ghost predicate HasId(cs: seq<Category>, id: string)
  {
    exists i :: 0 <= i < |cs| && cs[i].id == id
  }

  /** The six category ids are pairwise different. */
  lemma CategoryIdsUnique()
    ensures |Categories| == 6 && UniqueIds(Categories)
  {
  }

  /** The tab click `setActiveCategory(category.id === activeCategory ? null : category.id)`. */
  function Toggle(active: Option<string>, id: string): (r: Option<string>)
    ensures r.None? <==> active == Some(id)
    ensures r.Some? ==> r.value == id
  {
    if active == Some(id) then None else Some(id)
  }

  /** Clicking the same tab twice ends with nothing active exactly when that tab was not the
      active one before; from the active tab two clicks close and reopen it. */
  lemma ToggleTwice(active: Option<string>, id: string)
    ensures Toggle(Toggle(active, id), id) == None <==> active != Some(id)
    ensures active == Some(id) ==> Toggle(Toggle(active, id), id) == active
  {
  }

  /** `cs.filter(cat => cat.id === id)`. */
  function FilterById(cs: seq<Category>, id: string): (r: seq<Category>)
    ensures |r| <= |cs|
    ensures forall k :: 0 <= k < |r| ==> r[k].id == id && r[k] in cs
    ensures forall c :: c in cs && c.id == id ==> c in r
  {
    if cs == [] then []
    else (if cs[0].id == id then [cs[0]] else []) + FilterById(cs[1..], id)
  }

  /** With unique ids, filtering by the id of category i leaves that category alone, and
      filtering by an id no category has leaves nothing. */
  lemma {:induction false} FilterUnique(cs: seq<Category>, id: string)
    requires UniqueIds(cs)
    ensures HasId(cs, id) ==> exists i :: 0 <= i < |cs| && cs[i].id == id && FilterById(cs, id) == [cs[i]]
    ensures !HasId(cs, id) ==> FilterById(cs, id) == []
  {
    if cs != [] {
      var rest := cs[1..];
      assert UniqueIds(rest) by {
        forall i, j | 0 <= i < j < |rest| ensures rest[i].id != rest[j].id {
          assert rest[i] == cs[i + 1] && rest[j] == cs[j + 1];
        }
      }
      FilterUnique(rest, id);
      if cs[0].id == id {
        assert !HasId(rest, id) by {
          forall i | 0 <= i < |rest| ensures rest[i].id != id {
            assert rest[i] == cs[i + 1];
          }
        }
        assert FilterById(cs, id) == [cs[0]];
      } else if HasId(rest, id) {
        var i :| 0 <= i < |rest| && rest[i].id == id && FilterById(rest, id) == [rest[i]];
        assert cs[i + 1] == rest[i];
      } else {
        assert !HasId(cs, id) by {
          forall i | 0 <= i < |cs| ensures cs[i].id != id {
            if i > 0 {
              assert cs[i] == rest[i - 1];
            }
          }
        }
      }
    }
  }

  /** The categories the detail panel lists: none while no tab is active, otherwise the
      filter by the active id. */
  function Panel(active: Option<string>): (r: seq<Category>)
    ensures active.None? ==> r == []
  {
    match active
    case None => []
    case Some(id) => FilterById(Categories, id)
  }

  /** The panel holds exactly one category when the active id is a category's, namely that
      category, and none otherwise. */
  lemma PanelHoldsActiveCategory(active: Option<string>)
    ensures active.Some? && HasId(Categories, active.value) ==>
              exists i :: 0 <= i < |Categories| && Panel(active) == [Categories[i]] && Categories[i].id == active.value
    ensures !(active.Some? && HasId(Categories, active.value)) ==> Panel(active) == []
  {
    if active.Some? {
      CategoryIdsUnique();
      FilterUnique(Categories, active.value);
    }
  }

  /** Clicking the tab of an inactive category i makes the panel show category i and nothing
      else; clicking the active tab empties the panel. */
  lemma ClickShowsCategory(active: Option<string>, i: nat)
    requires i < |Categories|
    ensures active != Some(Categories[i].id) ==> Panel(Toggle(active, Categories[i].id)) == [Categories[i]]
    ensures active == Some(Categories[i].id) ==> Panel(Toggle(active, Categories[i].id)) == []
  {
    var next := Toggle(active, Categories[i].id);
    if next.Some? {
      PanelHoldsActiveCategory(next);
      CategoryIdsUnique();
      var k :| 0 <= k < |Categories| && Panel(next) == [Categories[k]] && Categories[k].id == next.value;
      assert k == i;
    }
  }

  /** `hasImage = category.image`: the picture is shown beside a category that has one. */
  predicate HasImage(c: Category)
  {
    c.image.Some?
  }

  /** Solar is the only category with a picture. */
  lemma OnlySolarHasImage()
    ensures forall c :: c in Categories ==> (HasImage(c) <==> c.id == "solar")
  {
  }

  /** The image panel appears exactly when the solar tab is the active one. */
  lemma ImagePanelIffSolar(active: Option<string>)
    ensures (exists c :: c in Panel(active) && HasImage(c)) <==> active == Some("solar")
  {
    PanelHoldsActiveCategory(active);
    OnlySolarHasImage();
    if active == Some("solar") {
      assert Categories[5].id == "solar";
    }
  }

  /** The `activeCategory` state of the component. */
  class CategoryTabs {
    var activeCategory: Option<string>

    /** The active tab, if any, is one of the categories. */
    ghost predicate Valid()
      reads this
    {
      activeCategory.None? || HasId(Categories, activeCategory.value)
    }

    /** `useState<string | null>(null)`: no tab is active at first. */
    constructor()
      ensures activeCategory == None && Valid()
    {
      activeCategory := None;
    }

    /** A click on the tab of category i. */
    method Click(i: nat)
      requires i < |Categories| && Valid()
      modifies this
      ensures activeCategory == Toggle(old(activeCategory), Categories[i].id) && Valid()
    {
      var id := Categories[i].id;
      activeCategory := if activeCategory == Some(id) then None else Some(id);
    }
  }
}
