/** The product grid with its carousel (components/ProductGridWithCarousel.js): the
    first twelve products form the grid, the rest scroll in a carousel five at a
    time, moved by the prev/next buttons and by a periodic tick; the heart on each
    card toggles the product in the visitor's liked list. */
module ProductCarousel {
  import opened Common

  const VisibleCount := 12
  const CarouselVisible := 5

  /** `products.slice(0, visibleCount)`. */
  function Visible<T>(products: seq<T>): (r: seq<T>)
    ensures |r| == if |products| < VisibleCount then |products| else VisibleCount
    ensures r <= products
  {
    if |products| < VisibleCount then products else products[..VisibleCount]
  }

  /** `products.slice(visibleCount)`. */
  function Remaining<T>(products: seq<T>): (r: seq<T>)
    ensures |r| == if |products| < VisibleCount then 0 else |products| - VisibleCount
  {
    if |products| < VisibleCount then [] else products[VisibleCount..]
  }

  /** The grid and the carousel split the list: together they are the list, in order. */
  lemma SplitIsList<T>(products: seq<T>)
    ensures Visible(products) + Remaining(products) == products
    ensures |Remaining(products)| > 0 ==> |Visible(products)| == VisibleCount
  {
    if |products| >= VisibleCount {
      assert products[..VisibleCount] + products[VisibleCount..] == products;
    }
  }

  predicate CanGoPrev(index: int) { index > 0 }

  /** `carouselIndex < remainingProducts.length - carouselVisible`. */
  predicate CanGoNext(index: int, remaining: nat) { index < remaining - CarouselVisible }

  /** The largest index the carousel can show: a full window of five, or 0. */
  function MaxIndex(remaining: nat): nat {
    if remaining > CarouselVisible then remaining - CarouselVisible else 0
  }

  /** The interval callback: forward by one until the last full window, then
      back to the start. */
  function TickStep(index: int, remaining: nat): (r: int)
    ensures index >= 0 ==> (r == 0 <==> index >= remaining - CarouselVisible)
    ensures 0 <= index <= MaxIndex(remaining) ==> 0 <= r <= MaxIndex(remaining)
  {
    if index < remaining - CarouselVisible then index + 1 else 0
  }

  /** `k` ticks from `index`. */
  function Ticks(index: int, remaining: nat, k: nat): int {
    if k == 0 then index else TickStep(Ticks(index, remaining, k - 1), remaining)
  }

  /** From the start, the tick visits every window in order and comes back to the
      start after `remaining - 4` ticks. */
  lemma {:induction false} TicksCycle(remaining: nat, k: nat)
    requires remaining > CarouselVisible && k <= remaining - CarouselVisible + 1
    ensures Ticks(0, remaining, k) == if k <= remaining - CarouselVisible then k else 0
  {
    if k > 0 {
      TicksCycle(remaining, k - 1);
    }
  }

  /** What the like request returns: it throws, or yields `success` and a message
      (`""` when the body has none). */
  datatype LikeReply = LikeThrew | LikeReply(success: bool, message: string)

  /** What the initial liked-list request returns; `likedProducts` is `None` when
      the body has no such array. */
  datatype LikesReply = LikesThrew | LikesReply(success: bool, likedProducts: Option<seq<string>>)

  datatype Toast = Success(message: string) | Error(message: string)

  const MsgImpossible := "Action impossible."
  const MsgServerError := "Erreur serveur."

  class Carousel {
    /** The ids of the products passed in, in display order. */
    const products: seq<string>
    var carouselIndex: int
    var likedProducts: seq<string>
    ghost var toasts: seq<Toast>

    /** The index stays within the windows the carousel can show. */
    ghost predicate Valid()
      reads this
    {
      0 <= carouselIndex <= MaxIndex(|Remaining(products)|)
    }

    constructor(products: seq<string>)
      ensures Valid()
      ensures this.products == products && carouselIndex == 0 && likedProducts == [] && toasts == []
    {
      this.products := products;
      carouselIndex := 0;
      likedProducts := [];
      toasts := [];
    }

    /** One interval tick. The interval only exists when more than five products
        are in the carousel; otherwise nothing moves. */
    method Tick()
      requires Valid()
      modifies this
      ensures Valid()
      ensures |Remaining(products)| <= CarouselVisible ==> carouselIndex == old(carouselIndex)
      ensures |Remaining(products)| > CarouselVisible ==>
                carouselIndex == TickStep(old(carouselIndex), |Remaining(products)|)
      ensures likedProducts == old(likedProducts) && toasts == old(toasts)
    {
      var remaining := |Remaining(products)|;
      if remaining <= CarouselVisible {
        return;
      }
      carouselIndex := if carouselIndex < remaining - CarouselVisible then carouselIndex + 1 else 0;
    }

    /** The prev button: moves back only when `canGoPrev`. */
    method Prev()
      requires Valid()
      modifies this
      ensures Valid()
      ensures carouselIndex == if CanGoPrev(old(carouselIndex)) then old(carouselIndex) - 1 else old(carouselIndex)
      ensures likedProducts == old(likedProducts) && toasts == old(toasts)
    {
      if CanGoPrev(carouselIndex) {
        carouselIndex := carouselIndex - 1;
      }
    }

    /** The next button: moves forward only when `canGoNext`. */
    method Next()
      requires Valid()
      modifies this
      ensures Valid()
      ensures carouselIndex == if CanGoNext(old(carouselIndex), |Remaining(products)|)
                               then old(carouselIndex) + 1 else old(carouselIndex)
      ensures likedProducts == old(likedProducts) && toasts == old(toasts)
    {
      if CanGoNext(carouselIndex, |Remaining(products)|) {
        carouselIndex := carouselIndex + 1;
      }
    }

    /** The initial fetch: the list is replaced only by a successful reply that has one. */
    method LoadLikes(reply: LikesReply)
      requires Valid()
      modifies this
      ensures Valid()
      ensures likedProducts == if reply.LikesReply? && reply.success && reply.likedProducts.Some?
                               then reply.likedProducts.value else old(likedProducts)
      ensures carouselIndex == old(carouselIndex) && toasts == old(toasts)
    {
      if reply.LikesReply? && reply.success && reply.likedProducts.Some? {
        likedProducts := reply.likedProducts.value;
      }
    }

    /** The heart: on success the id is toggled in the local list; a refusal or an
        exception leaves the list and only shows a toast. */
    method ToggleLike(productId: string, reply: LikeReply)
      requires Valid()
      modifies this
      ensures Valid()
      ensures reply.LikeReply? && reply.success ==>
                likedProducts == Toggle(old(likedProducts), productId)
                && toasts == old(toasts) + [Success(reply.message)]
      ensures reply.LikeReply? && !reply.success ==>
                likedProducts == old(likedProducts)
                && toasts == old(toasts) + [Error(if reply.message == "" then MsgImpossible else reply.message)]
      ensures reply.LikeThrew? ==> likedProducts == old(likedProducts) && toasts == old(toasts) + [Error(MsgServerError)]
      ensures carouselIndex == old(carouselIndex)
    {
      if reply.LikeThrew? {
        toasts := toasts + [Error(MsgServerError)];
        return;
      }
      if reply.success {
        if productId in likedProducts {
          likedProducts := Without(likedProducts, productId);
        } else {
          likedProducts := likedProducts + [productId];
        }
        toasts := toasts + [Success(reply.message)];
      } else {
        toasts := toasts + [Error(if reply.message == "" then MsgImpossible else reply.message)];
      }
    }
  }

  /** The things that happen to a mounted carousel. */
  datatype Event = PrevPressed | NextPressed | Ticked | HeartClicked(id: string, reply: LikeReply) | LikesLoaded(likes: LikesReply)

  /** Whatever sequence of ticks, button presses and likes happens, the index never
      goes below 0 nor past the last full window. */
  method Session(products: seq<string>, events: seq<Event>)
    returns (index: int)
    ensures 0 <= index <= MaxIndex(|Remaining(products)|)
  {
    var c := new Carousel(products);
    var i := 0;
    while i < |events|
      invariant 0 <= i <= |events|
      invariant c.Valid() && c.products == products
    {
      match events[i] {
        case PrevPressed => c.Prev();
        case NextPressed => c.Next();
        case Ticked => c.Tick();
        case HeartClicked(id, reply) => c.ToggleLike(id, reply);
        case LikesLoaded(likes) => c.LoadLikes(likes);
      }
      i := i + 1;
    }
    index := c.carouselIndex;
  }
}
