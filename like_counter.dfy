/**
 * The like button of a popup: two closure variables, `liked` and `count`,
 * created with the popup content and flipped by each click.
 */
module LikeCounter {
  import opened Wrappers

  datatype LikeState = LikeState(liked: bool, count: int)

  /** The states a like button can reach from a fresh popup with a non-negative seed. */
  ghost predicate Valid(l: LikeState)
  {
    l.count >= 0 && (l.liked ==> l.count >= 1)
  }

  /** `site.initialLikes || 0`: a missing (or zero) seed counts as zero. */
  function Seed(initialLikes: Option<int>): int
  {
    if initialLikes.Some? then initialLikes.value else 0
  }

  /** The state of a freshly built popup: not liked, counting the site's seed. */
  function Fresh(initialLikes: Option<int>): (l: LikeState)
    ensures !l.liked
    ensures l.count == Seed(initialLikes)
    ensures initialLikes.None? ==> l.count == 0
    ensures Seed(initialLikes) >= 0 ==> Valid(l)
  {
    LikeState(false, Seed(initialLikes))
  }

  /** One click: flip `liked`; count up on a like, down (never below zero) on an unlike. */
  function Toggle(l: LikeState): (r: LikeState)
    ensures r.liked == !l.liked
    ensures l.count >= 0 ==> r.count >= 0
    ensures Valid(l) ==> Valid(r)
    ensures r.liked ==> r.count == l.count + 1
    ensures !r.liked ==> r.count == if l.count >= 1 then l.count - 1 else 0
  {
    var liked := !l.liked;
    LikeState(liked, if liked then l.count + 1 else if l.count - 1 < 0 then 0 else l.count - 1)
  }

  /** On every reachable state two clicks undo each other. */
  lemma ToggleTwice(l: LikeState)
    requires Valid(l)
    ensures Toggle(Toggle(l)) == l
  {
  }

  /** `k` clicks in a row. */
  function Clicks(l: LikeState, k: nat): LikeState
  {
    if k == 0 then l else Toggle(Clicks(l, k - 1))
  }

  /**
   * From a fresh popup seeded with `n >= 0`, the button alternates between
   * `(false, n)` and `(true, n + 1)`, whatever the number of clicks.
   */
  lemma {:induction false} ClicksAlternate(n: int, k: nat)
    requires n >= 0
    ensures Clicks(LikeState(false, n), k) == if k % 2 == 0 then LikeState(false, n) else LikeState(true, n + 1)
  {
    if k > 0 {
      ClicksAlternate(n, k - 1);
    }
  }
}
