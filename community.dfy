/** The community feed: the reel viewer, the like buttons of reels and
    posts, and the post form's visibility. Toasts are not modelled. */
module Community {

  /** A reel, reduced to what the handlers use. */
  datatype Reel = Reel(id: int, likes: int)

  /** A post, reduced to what the handlers and the like count use. */
  datatype Post = Post(likes: int, isLiked: bool)

  const Reels: seq<Reel> := [Reel(1, 1234), Reel(2, 2341), Reel(3, 3456), Reel(4, 4567)]

  const Posts: seq<Post> := [Post(567, false), Post(892, true), Post(445, false), Post(678, true)]

  /** The like flags and stored like counts of one kind of item, keyed by
      post index or reel id (`likedPosts`/`postLikes`, `likedReels`/`reelLikes`). */
  datatype LikeState = LikeState(liked: map<int, bool>, counts: map<int, int>)

  /** `liked[key]`, where a missing key reads as `undefined` and is falsy. */
  function IsLiked(liked: map<int, bool>, key: int): bool {
    key in liked && liked[key]
  }

  /** The count a post shows: `postLikes[index] ?? post.likes`. */
  function Displayed(counts: map<int, int>, key: int, initialLikes: int): (n: int)
    ensures key in counts ==> n == counts[key]
    ensures key !in counts ==> n == initialLikes
  {
    if key in counts then counts[key] else initialLikes
  }

  /** One click on a like button: the flag flips, and the stored count is
      reset to `initialLikes` when it is missing or 0 (falsy), then moves by
      one according to the flag before the click. */
  function ToggleLike(s: LikeState, key: int, initialLikes: int): (t: LikeState)
    ensures IsLiked(t.liked, key) == !IsLiked(s.liked, key)
    ensures key in t.liked && key in t.counts
    ensures forall k :: k != key ==> (k in t.liked <==> k in s.liked) && (k in t.counts <==> k in s.counts)
    ensures forall k :: k != key && k in s.liked ==> t.liked[k] == s.liked[k]
    ensures forall k :: k != key && k in s.counts ==> t.counts[k] == s.counts[k]
  {
    var start := if key !in s.counts || s.counts[key] == 0 then initialLikes else s.counts[key];
    LikeState(s.liked[key := !IsLiked(s.liked, key)],
              s.counts[key := if IsLiked(s.liked, key) then start - 1 else start + 1])
  }

  /** The stored count agrees with the flag: nothing stored and not liked,
      or the initial count plus one exactly when liked. */
  predicate Consistent(s: LikeState, key: int, initialLikes: int) {
    || (key !in s.counts && !IsLiked(s.liked, key))
    || (key in s.counts && s.counts[key] == initialLikes + (if IsLiked(s.liked, key) then 1 else 0))
  }

  /** A click on a consistent, non-negative item keeps it consistent and
      moves the shown count by one: up when it becomes liked, down when
      it is unliked. */
  lemma ToggleKeepsConsistent(s: LikeState, key: int, initialLikes: int)
    requires initialLikes >= 0 && Consistent(s, key, initialLikes)
    ensures Consistent(ToggleLike(s, key, initialLikes), key, initialLikes)
    ensures var t := ToggleLike(s, key, initialLikes);
      Displayed(t.counts, key, initialLikes)
        == Displayed(s.counts, key, initialLikes) + (if IsLiked(s.liked, key) then -1 else 1)
  {
  }

  /** Two clicks on a consistent item restore its flag and its shown count. */
  lemma DoubleToggleRestores(s: LikeState, key: int, initialLikes: int)
    requires initialLikes >= 0 && Consistent(s, key, initialLikes)
    ensures var t := ToggleLike(ToggleLike(s, key, initialLikes), key, initialLikes);
      && IsLiked(t.liked, key) == IsLiked(s.liked, key)
      && Displayed(t.counts, key, initialLikes) == Displayed(s.counts, key, initialLikes)
  {
    ToggleKeepsConsistent(s, key, initialLikes);
    ToggleKeepsConsistent(ToggleLike(s, key, initialLikes), key, initialLikes);
  }

  /** A stored count of 0 is taken for a missing one: with a negative
      initial count, unliking from a shown 0 gives -2 instead of -1. */
  lemma ZeroCountReadAsMissing()
    ensures var t := ToggleLike(LikeState(map[0 := true], map[0 := 0]), 0, -1);
      Displayed(t.counts, 0, -1) == -2
  {
  }

  /** On a page in its initial state no post is liked and every post shows
      its seed count, though some posts are seeded as liked: the seed
      `isLiked` is never read. */
  lemma SeedLikedFlagIgnored(likedPosts: map<int, bool>, postLikes: map<int, int>)
    requires likedPosts == map[] && postLikes == map[]
    ensures exists i :: 0 <= i < |Posts| && Posts[i].isLiked
    ensures forall i :: 0 <= i < |Posts| ==>
      !IsLiked(likedPosts, i) && Displayed(postLikes, i, Posts[i].likes) == Posts[i].likes
  {
    assert Posts[1].isLiked;
  }

  /** Reel ids are distinct, so a reel's like state is its own. */
  lemma ReelIdsDistinct()
    ensures forall i, j :: 0 <= i < j < |Reels| ==> Reels[i].id != Reels[j].id
  {
  }

  datatype Direction = Up | Down

  /** `handleReelScroll`: one step in the given direction, stopping at
      either end of the reel list. */
  function NextReel(active: int, direction: Direction): (r: int)
    ensures 0 <= active < |Reels| ==> 0 <= r < |Reels|
    ensures direction == Down && 0 <= active < |Reels| - 1 ==> r == active + 1
    ensures direction == Up && 0 < active ==> r == active - 1
    ensures direction == Down && active >= |Reels| - 1 ==> r == active
    ensures direction == Up && active <= 0 ==> r == active
  {
    if direction == Down && active < |Reels| - 1 then active + 1
    else if direction == Up && active > 0 then active - 1
    else active
  }

  class CommunityPage {
    var showPostForm: bool
    var activeReel: int
    var likedPosts: map<int, bool>
    var postLikes: map<int, int>
    var likedReels: map<int, bool>
    var reelLikes: map<int, int>

    /** The reel shown is one of the reels, and every post and reel keeps
        its stored count in step with its flag. */
    ghost predicate Valid()
      reads this
    {
      && 0 <= activeReel < |Reels|
      && (forall i :: 0 <= i < |Posts| ==> Consistent(LikeState(likedPosts, postLikes), i, Posts[i].likes))
      && (forall i :: 0 <= i < |Reels| ==> Consistent(LikeState(likedReels, reelLikes), Reels[i].id, Reels[i].likes))
    }

    constructor ()
      ensures Valid()
      ensures !showPostForm && activeReel == 0
      ensures likedPosts == map[] && postLikes == map[] && likedReels == map[] && reelLikes == map[]
      ensures forall i :: 0 <= i < |Posts| ==>
        !IsLiked(likedPosts, i) && Displayed(postLikes, i, Posts[i].likes) == Posts[i].likes
    {
      showPostForm := false;
      activeReel := 0;
      likedPosts := map[];
      postLikes := map[];
      likedReels := map[];
      reelLikes := map[];
    }

    /** `handlePostLike(index, post.likes)` from a post's like button. */
    method HandlePostLike(index: int, initialLikes: int)
      requires Valid() && 0 <= index < |Posts| && initialLikes == Posts[index].likes
      modifies this`likedPosts, this`postLikes
      ensures Valid()
      ensures LikeState(likedPosts, postLikes) == ToggleLike(LikeState(old(likedPosts), old(postLikes)), index, initialLikes)
      ensures Displayed(postLikes, index, initialLikes)
        == Displayed(old(postLikes), index, initialLikes) + (if IsLiked(old(likedPosts), index) then -1 else 1)
    {
      var s := LikeState(likedPosts, postLikes);
      ToggleKeepsConsistent(s, index, initialLikes);
      var t := ToggleLike(s, index, initialLikes);
      likedPosts, postLikes := t.liked, t.counts;
    }

    /** `handleReelLike(reels[activeReel].id, reels[activeReel].likes)`. */
    method HandleReelLike(id: int, initialLikes: int)
      requires Valid() && id == Reels[activeReel].id && initialLikes == Reels[activeReel].likes
      modifies this`likedReels, this`reelLikes
      ensures Valid()
      ensures LikeState(likedReels, reelLikes) == ToggleLike(LikeState(old(likedReels), old(reelLikes)), id, initialLikes)
    {
      var s := LikeState(likedReels, reelLikes);
      ToggleKeepsConsistent(s, id, initialLikes);
      ReelIdsDistinct();
      var t := ToggleLike(s, id, initialLikes);
      likedReels, reelLikes := t.liked, t.counts;
    }

    /** The up and down arrows of the reel viewer. */
    method HandleReelScroll(direction: Direction)
      requires Valid()
      modifies this`activeReel
      ensures Valid()
      ensures activeReel == NextReel(old(activeReel), direction)
    {
      if direction == Down && activeReel < |Reels| - 1 {
        activeReel := activeReel + 1;
      } else if direction == Up && activeReel > 0 {
        activeReel := activeReel - 1;
      }
    }

    /** A click on the indicator of the reel at `index`. */
    method SelectReel(index: int)
      requires Valid() && 0 <= index < |Reels|
      modifies this`activeReel
      ensures Valid() && activeReel == index
    {
      activeReel := index;
    }

    /** The "Create Post" button. */
    method TogglePostForm()
      requires Valid()
      modifies this`showPostForm
      ensures Valid() && showPostForm == !old(showPostForm)
    {
      showPostForm := !showPostForm;
    }

    /** `handlePostSubmit` and the form's Cancel button both hide the form. */
    method ClosePostForm()
      requires Valid()
      modifies this`showPostForm
      ensures Valid() && !showPostForm
    {
      showPostForm := false;
    }
  }
}
