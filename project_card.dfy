/**
 * The project card of `src/components/ProjectCard.jsx`: which media block a project shows
 * (live demo, image slideshow or nothing), and the slideshow's cyclic image index, moved by
 * the previous/next buttons and set directly by the dot buttons.
 */
module ProjectCard {
  import opened Wrappers

  /** A project entry; `demo`, `repo` and `images` may be absent. */
  datatype Project = Project(
    title: string,
    description: string,
    tech: string,
    demo: Option<string>,
    repo: Option<string>,
    images: Option<seq<string>>)

  /** `project.demo` is truthy: present and not the empty string. */
  predicate ShowsDemo(p: Project)
  {
    p.demo.Some? && p.demo.value != ""
  }

  /** The slideshow renders when there are images (even an empty list) and no demo. */
  predicate ShowsSlideshow(p: Project)
  {
    p.images.Some? && !ShowsDemo(p)
  }

  /** The number of images, 0 when there are none. */
  function ImageCount(p: Project): nat
  {
    if p.images.Some? then |p.images.value| else 0
  }

  /** The previous/next buttons, the counter and the dots render only with more than one image. */
  predicate ShowsNav(p: Project)
  {
    ShowsSlideshow(p) && ImageCount(p) > 1
  }

  /**
   * A demo takes precedence over the slideshow, and the navigation controls (the only callers
   * of `nextImage` and `prevImage`) exist only when the image count, their modulus, is at least 2.
   */
  lemma MediaRules(p: Project)
    ensures !(ShowsDemo(p) && ShowsSlideshow(p))
    ensures ShowsNav(p) ==> ShowsSlideshow(p) && ImageCount(p) >= 2
  {
  }

  /** `(prev + 1) % n`: the next index, wrapping from the last image to the first. */
  function NextIndex(i: nat, n: nat): (r: nat)
    requires n > 0
    ensures r < n
    ensures i + 1 < n ==> r == i + 1
    ensures i + 1 == n ==> r == 0
  {
    (i + 1) % n
  }

  /** `(prev - 1 + n) % n`: the previous index, wrapping from the first image to the last. */
  function PrevIndex(i: nat, n: nat): (r: nat)
    requires n > 0
    ensures r < n
    ensures 0 < i <= n ==> r == i - 1
    ensures i == 0 ==> r == n - 1
  {
    (i - 1 + n) % n
  }

  /** Previous undoes next and next undoes previous, for every valid index. */
  lemma PrevNextInverse(i: nat, n: nat)
    requires i < n
    ensures PrevIndex(NextIndex(i, n), n) == i
    ensures NextIndex(PrevIndex(i, n), n) == i
  {
  }

  /** The index after `k` presses of the next button. */
  function NextTimes(i: nat, k: nat, n: nat): (r: nat)
    requires n > 0
    decreases k
  {
    if k == 0 then i else NextIndex(NextTimes(i, k - 1, n), n)
  }

  /** Within one cycle, `k` presses of next from index `i` land on `i + k`, wrapped once past the end. */
  lemma {:induction false} NextTimesWithinCycle(i: nat, k: nat, n: nat)
    requires i < n && k <= n
    ensures NextTimes(i, k, n) == if i + k < n then i + k else i + k - n
    decreases k
  {
    if k > 0 {
      NextTimesWithinCycle(i, k - 1, n);
    }
  }

  /** Pressing next `n` times returns to the starting image. */
  lemma FullCycle(i: nat, n: nat)
    requires i < n
    ensures NextTimes(i, n, n) == i
  {
    NextTimesWithinCycle(i, n, n);
  }

  /** Presses compose: `a` presses then `b` presses are `a + b` presses. */
  lemma {:induction false} NextTimesAdd(i: nat, a: nat, b: nat, n: nat)
    requires n > 0
    ensures NextTimes(NextTimes(i, a, n), b, n) == NextTimes(i, a + b, n)
    decreases b
  {
    if b > 0 {
      NextTimesAdd(i, a, b - 1, n);
    }
  }

  /** The index after `k` presses depends only on `k` modulo a full cycle. */
  lemma NextTimesPeriodic(i: nat, k: nat, n: nat)
    requires i < n
    ensures NextTimes(i, k + n, n) == NextTimes(i, k, n)
  {
    NextTimesAdd(i, n, k, n);
    FullCycle(i, n);
  }

  /** The dots, one per image; the one equal to the current index is marked active. */
  function Dots(n: nat, current: nat): (r: seq<bool>)
    ensures |r| == n && forall k :: 0 <= k < n ==> (r[k] <==> k == current)
  {
    seq(n, k requires 0 <= k < n => k == current)
  }

  /** How many dots are marked active. */
  function CountActive(dots: seq<bool>): nat
    decreases |dots|
  {
    if dots == [] then 0 else CountActive(dots[..|dots| - 1]) + (if dots[|dots| - 1] then 1 else 0)
  }

  /** Exactly one dot is active when the index is valid; none otherwise. */
  lemma {:induction false} ExactlyOneActive(n: nat, current: nat)
    ensures CountActive(Dots(n, current)) == (if current < n then 1 else 0)
    decreases n
  {
    if n > 0 {
      ExactlyOneActive(n - 1, current);
      assert Dots(n, current)[..n - 1] == Dots(n - 1, current);
    }
  }

  /** The counter `i + 1 / n` shows a position between 1 and n. */
  function DisplayedPosition(i: nat, n: nat): (r: nat)
    requires i < n
    ensures 1 <= r <= n && r - 1 == i
  {
    i + 1
  }

  /** One project card with its `currentImageIndex` state cell. */
  class ProjectCardView {
    const project: Project
    var currentImageIndex: nat

    /** The index always names an image, or is 0 when there is none. */
    predicate Valid()
      reads this
    {
      currentImageIndex == 0 || currentImageIndex < ImageCount(project)
    }

    constructor (p: Project)
      ensures project == p && currentImageIndex == 0 && Valid()
    {
      project := p;
      currentImageIndex := 0;
    }

    /** The chevron-right button, which renders only when `ShowsNav(project)`. */
    method NextImage()
      requires Valid() && ShowsNav(project)
      modifies this
      ensures Valid()
      ensures currentImageIndex == NextIndex(old(currentImageIndex), ImageCount(project))
    {
      var n := |project.images.value|;
      currentImageIndex := (currentImageIndex + 1) % n;
    }

    /** The chevron-left button, which renders only when `ShowsNav(project)`. */
    method PrevImage()
      requires Valid() && ShowsNav(project)
      modifies this
      ensures Valid()
      ensures currentImageIndex == PrevIndex(old(currentImageIndex), ImageCount(project))
    {
      var n := |project.images.value|;
      currentImageIndex := (currentImageIndex - 1 + n) % n;
    }

    /** Dot button `idx`, one per image; it sets the index directly. */
    method SelectImage(idx: nat)
      requires Valid() && ShowsNav(project) && idx < ImageCount(project)
      modifies this
      ensures Valid() && currentImageIndex == idx
    {
      currentImageIndex := idx;
    }
  }

  /** The third project of the portfolio: five screenshots and no demo. */
  const Rupptech: Project := Project(
    "RUPPTECH",
    "Mobile E-Commerce App. A full-stack web app for browsing and buying mobile phones.",
    "Mern Stack",
    None,
    Some("https://github.com/faintedsnow/RuppTech"),
    Some(["/assets/Rupptech/S1.png", "/assets/Rupptech/S2.png", "/assets/Rupptech/S3.png",
          "/assets/Rupptech/S4.png", "/assets/Rupptech/S5.png"]))

  /** Its card shows the slideshow with navigation over five images, and no demo. */
  lemma RupptechSlideshow()
    ensures ImageCount(Rupptech) == 5 && ShowsSlideshow(Rupptech) && ShowsNav(Rupptech) && !ShowsDemo(Rupptech)
  {
    assert ImageCount(Rupptech) == 5;
  }
}
