/** The lightbox of my-app/src/components/sections/Gallery.tsx: which image is open, the
    previous/next buttons and arrow keys that move through the twelve images cyclically,
    Escape and the close button, and the "k / 12" counter. */
module Gallery {
  import opened Wrappers

  /** The ids of `galleryImages`, in display order. */
  const ImageIds: seq<int> := [1, 2, 3, 4, 5, 6, 7, 8, 9, 10, 11, 12]

  /** No id occurs twice. */
  ghost predicate Distinct(xs: seq<int>)
  {
    forall i, j :: 0 <= i < j < |xs| ==> xs[i] != xs[j]
  }

  /** `xs.findIndex(v => v === x)`: the first position holding x, or -1. */
  function FindIndex(xs: seq<int>, x: int): (r: int)
    ensures -1 <= r < |xs|
    ensures r == -1 <==> x !in xs
    ensures r >= 0 ==> xs[r] == x && x !in xs[..r]
  {
    if xs == [] then -1
    else if xs[0] == x then 0
    else
      var r := FindIndex(xs[1..], x);
      assert xs[1..][..r + 1] == xs[1..r + 2];
      if r == -1 then -1 else r + 1
  }

  /** In a list without repeats, the position of the element at i is i. */
  lemma FindIndexOfDistinct(xs: seq<int>, i: nat)
    requires Distinct(xs) && i < |xs|
    ensures FindIndex(xs, xs[i]) == i
  {
    assert xs[i] in xs;
  }

  /** The selection is closed or one of the ids. */
  predicate Shown(ids: seq<int>, selected: Option<int>)
  {
    selected.None? || selected.value in ids
  }

  /** `handlePrevious` over the image list `ids`: nothing when closed; otherwise the image
      before, the last one before the first. An id missing from the list would make the
      source read position -2, so the selection must be one of the ids. */
  function Previous(ids: seq<int>, selected: Option<int>): (r: Option<int>)
    requires Shown(ids, selected)
    ensures Shown(ids, r) && (r.None? <==> selected.None?)
  {
    match selected
    case None => None
    case Some(id) =>
      var currentIndex := FindIndex(ids, id);
      var prevIndex := if currentIndex == 0 then |ids| - 1 else currentIndex - 1;
      Some(ids[prevIndex])
  }

  /** `handleNext` over the image list `ids`: nothing when closed; otherwise the image after,
      the first one after the last. An id missing from the list has index -1, so its "next"
      is the first image; only an empty list has no image to move to. */
  function Next(ids: seq<int>, selected: Option<int>): (r: Option<int>)
    requires selected.None? || |ids| > 0
    ensures Shown(ids, r) && (r.None? <==> selected.None?)
    ensures selected.Some? && selected.value !in ids ==> r == Some(ids[0])
  {
    match selected
    case None => None
    case Some(id) =>
      var currentIndex := FindIndex(ids, id);
      var nextIndex := if currentIndex == |ids| - 1 then 0 else currentIndex + 1;
      Some(ids[nextIndex])
  }

  /** `handleKeyDown`: nothing when closed; ArrowLeft and ArrowRight move, Escape closes,
      any other key leaves the selection as it is. */
  function KeyDown(ids: seq<int>, selected: Option<int>, key: string): (r: Option<int>)
    requires Shown(ids, selected)
    ensures Shown(ids, r)
  {
    if selected.None? then selected
    else if key == "ArrowLeft" then Previous(ids, selected)
    else if key == "ArrowRight" then Next(ids, selected)
    else if key == "Escape" then None
    else selected
  }

  /** The counter's first number, `findIndex(...) + 1`, for an open image: its place in the
      list, counting from 1. */
  function Counter(ids: seq<int>, selected: Option<int>): (r: int)
    requires selected.Some? && Shown(ids, selected)
    ensures 1 <= r <= |ids| && ids[r - 1] == selected.value
    ensures forall k :: 0 <= k < r - 1 ==> ids[k] != selected.value
  {
    var r := FindIndex(ids, selected.value);
    assert forall k :: 0 <= k < r ==> ids[..r][k] == ids[k];
    r + 1
  }

  /** The gallery has twelve images and no id twice. */
  lemma ImageIdsDistinct()
    ensures |ImageIds| == 12 && Distinct(ImageIds)
  {
  }

  /** The position after i on a circle of n places. */
  function Succ(i: nat, n: nat): (r: nat)
    requires i < n
    ensures r < n
  {
    if i + 1 == n then 0 else i + 1
  }

  /** The position before i on a circle of n places. */
  function Pred(i: nat, n: nat): (r: nat)
    requires i < n
    ensures r < n && Succ(r, n) == i
  {
    if i == 0 then n - 1 else i - 1
  }

  /** Next moves one place forward round the circle of images. */
  lemma NextIsSuccessor(ids: seq<int>, i: nat)
    requires Distinct(ids) && i < |ids|
    ensures Next(ids, Some(ids[i])) == Some(ids[Succ(i, |ids|)])
  {
    FindIndexOfDistinct(ids, i);
  }

  /** Previous moves one place back round the circle of images. */
  lemma PreviousIsPredecessor(ids: seq<int>, i: nat)
    requires Distinct(ids) && i < |ids|
    ensures Previous(ids, Some(ids[i])) == Some(ids[Pred(i, |ids|)])
  {
    FindIndexOfDistinct(ids, i);
  }

  /** In the gallery, next from the last image (12) opens the first (1), and previous from
      the first opens the last. */
  lemma EndsWrapAround()
    ensures Next(ImageIds, Some(12)) == Some(1)
    ensures Previous(ImageIds, Some(1)) == Some(12)
  {
    ImageIdsDistinct();
    NextIsSuccessor(ImageIds, 11);
    PreviousIsPredecessor(ImageIds, 0);
  }

  /** Previous undoes next, and next undoes previous. */
  lemma NextPreviousRoundTrip(ids: seq<int>, selected: Option<int>)
    requires Distinct(ids) && Shown(ids, selected)
    ensures Previous(ids, Next(ids, selected)) == selected
    ensures Next(ids, Previous(ids, selected)) == selected
  {
    if selected.Some? {
      var i := FindIndex(ids, selected.value);
      NextIsSuccessor(ids, i);
      PreviousIsPredecessor(ids, Succ(i, |ids|));
      PreviousIsPredecessor(ids, i);
      NextIsSuccessor(ids, Pred(i, |ids|));
    }
  }

  /** The position k steps after i on a circle of n places. */
  function Advance(i: nat, k: nat, n: nat): (r: nat)
    requires i < n
    ensures r < n
  {
    if k == 0 then i else Succ(Advance(i, k - 1, n), n)
  }

  /** Stepping a + b times is stepping a times, then b times. */
  lemma {:induction false} AdvanceAdd(i: nat, a: nat, b: nat, n: nat)
    requires i < n
    ensures Advance(i, a + b, n) == Advance(Advance(i, a, n), b, n)
  {
    if b > 0 {
      AdvanceAdd(i, a, b - 1, n);
    }
  }

  /** Below the end of the circle, k steps from i reach i + k. */
  lemma {:induction false} AdvanceNoWrap(i: nat, k: nat, n: nat)
    requires i + k < n
    ensures Advance(i, k, n) == i + k
  {
    if k > 0 {
      AdvanceNoWrap(i, k - 1, n);
    }
  }

  /** n steps go once round the circle: from i they come back to i, and the first n - i of
      them end at the start. */
  lemma AdvanceRound(i: nat, n: nat)
    requires i < n
    ensures Advance(i, n - i, n) == 0
    ensures Advance(i, n, n) == i
  {
    AdvanceNoWrap(i, n - i - 1, n);
    assert Advance(i, n - i, n) == Succ(Advance(i, n - i - 1, n), n);
    AdvanceAdd(i, n - i, i, n);
    AdvanceNoWrap(0, i, n);
  }

  /** Next applied k times. */
  ghost function NextTimes(ids: seq<int>, selected: Option<int>, k: nat): (r: Option<int>)
    requires Shown(ids, selected)
    ensures Shown(ids, r)
  {
    if k == 0 then selected else Next(ids, NextTimes(ids, selected, k - 1))
  }

  /** Pressing next k times from image i lands k places further round the circle. */
  lemma {:induction false} NextTimesAdvances(ids: seq<int>, i: nat, k: nat)
    requires Distinct(ids) && i < |ids|
    ensures NextTimes(ids, Some(ids[i]), k) == Some(ids[Advance(i, k, |ids|)])
  {
    if k > 0 {
      NextTimesAdvances(ids, i, k - 1);
      NextIsSuccessor(ids, Advance(i, k - 1, |ids|));
    }
  }

  /** As many presses of next as there are images bring back the image one started from. */
  lemma NextGoesRound(ids: seq<int>, i: nat)
    requires Distinct(ids) && i < |ids|
    ensures NextTimes(ids, Some(ids[i]), |ids|) == Some(ids[i])
  {
    NextTimesAdvances(ids, i, |ids|);
    AdvanceRound(i, |ids|);
  }

  /** From image i, k presses of next that stay before the end reach image i + k. */
  lemma NextReachesLater(ids: seq<int>, i: nat, k: nat)
    requires Distinct(ids) && i + k < |ids|
    ensures NextTimes(ids, Some(ids[i]), k) == Some(ids[i + k])
  {
    NextTimesAdvances(ids, i, k);
    AdvanceNoWrap(i, k, |ids|);
  }

  /** From image i, the m presses that go past the last image, and j more, reach image j:
      the images before i are reached by wrapping round. */
  lemma NextReachesEarlier(ids: seq<int>, i: nat, m: nat, j: nat)
    requires Distinct(ids) && i < |ids| && i + m == |ids| && j < i
    ensures NextTimes(ids, Some(ids[i]), m + j) == Some(ids[j])
  {
    var n := |ids|;
    NextTimesAdvances(ids, i, m + j);
    AdvanceRound(i, n);
    AdvanceAdd(i, m, j, n);
    AdvanceNoWrap(0, j, n);
  }

  /** The keys: Escape closes, the arrows move, any other key changes nothing; with the
      lightbox closed no key does anything. */
  lemma KeyDownCases(ids: seq<int>, selected: Option<int>, key: string)
    requires Shown(ids, selected)
    ensures selected.None? ==> KeyDown(ids, selected, key) == None
    ensures key == "Escape" ==> KeyDown(ids, selected, key) == None
    ensures key == "ArrowLeft" ==> KeyDown(ids, selected, key) == Previous(ids, selected)
    ensures key == "ArrowRight" ==> KeyDown(ids, selected, key) == Next(ids, selected)
    ensures key != "Escape" && key != "ArrowLeft" && key != "ArrowRight" ==>
              KeyDown(ids, selected, key) == selected
  {
  }

  /** The counter goes one up with next, from the last number back to 1. */
  lemma CounterFollowsNext(ids: seq<int>, selected: Option<int>)
    requires Distinct(ids) && selected.Some? && Shown(ids, selected)
    ensures Counter(ids, Next(ids, selected)) ==
            if Counter(ids, selected) == |ids| then 1 else Counter(ids, selected) + 1
  {
    var i := FindIndex(ids, selected.value);
    NextIsSuccessor(ids, i);
    FindIndexOfDistinct(ids, Succ(i, |ids|));
  }

  /** The `selectedImage` state of the component. */
  class Lightbox {
    var selectedImage: Option<int>

    predicate Valid()
      reads this
    {
      Shown(ImageIds, selectedImage)
    }

    constructor()
      ensures selectedImage == None && Valid()
    {
      selectedImage := None;
    }

    /** Clicking an image of the grid opens it. */
    method Open(id: int)
      requires id in ImageIds
      modifies this
      ensures selectedImage == Some(id) && Valid()
    {
      selectedImage := Some(id);
    }

    /** The backdrop and the close button. */
    method Close()
      modifies this
      ensures selectedImage == None && Valid()
    {
      selectedImage := None;
    }

    method HandlePrevious()
      requires Valid()
      modifies this
      ensures selectedImage == Previous(ImageIds, old(selectedImage)) && Valid()
    {
      if selectedImage.None? {
        return;
      }
      var currentIndex := FindIndex(ImageIds, selectedImage.value);
      var prevIndex := if currentIndex == 0 then |ImageIds| - 1 else currentIndex - 1;
      selectedImage := Some(ImageIds[prevIndex]);
    }

    method HandleNext()
      requires Valid()
      modifies this
      ensures selectedImage == Next(ImageIds, old(selectedImage)) && Valid()
    {
      if selectedImage.None? {
        return;
      }
      var currentIndex := FindIndex(ImageIds, selectedImage.value);
      var nextIndex := if currentIndex == |ImageIds| - 1 then 0 else currentIndex + 1;
      selectedImage := Some(ImageIds[nextIndex]);
    }

    method HandleKeyDown(key: string)
      requires Valid()
      modifies this
      ensures selectedImage == KeyDown(ImageIds, old(selectedImage), key) && Valid()
    {
      if selectedImage.None? {
        return;
      }
      if key == "ArrowLeft" {
        HandlePrevious();
      }
      if key == "ArrowRight" {
        HandleNext();
      }
      if key == "Escape" {
        selectedImage := None;
      }
    }
  }
}
