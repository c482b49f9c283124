/** The liked-products page (app/mon-espace/favoris/page.js): loads the visitor's
    liked products, and removes one from the page when its heart is clicked and
    the server confirms. A set of ids in flight keeps a second click on the same
    heart from sending a second request while the first is pending.

    A click is split in two steps, so that clicks can interleave: `StartToggle` is
    the guard and the request, `FinishToggle` is the reply and the `finally`. */
module Favourites {
  import opened Common

  datatype Product = Product(id: string, name: string)

  /** The load request: it fails (a non-ok status or an exception), or its body
      has a `products` value that is an array or is not. */
  datatype LoadReply = LoadFailed | Loaded(products: Option<seq<Product>>)

  datatype LikeReply = LikeThrew | LikeReply(success: bool, message: string)

  datatype Toast = Success(message: string) | Error(message: string)

  const MsgUpdateFailed := "Erreur lors de la mise à jour des favoris"
  const MsgServerError := "Erreur serveur."

  /** `prev.filter(product => product._id !== productId)`. */
  function RemoveProduct(products: seq<Product>, id: string): (r: seq<Product>)
    ensures |r| <= |products|
  {
    if products == [] then []
    else
      var init, last := products[..|products| - 1], products[|products| - 1];
      RemoveProduct(init, id) + (if last.id != id then [last] else [])
  }

  /** The filter keeps exactly the products with another id. */
  lemma {:induction false} RemoveProductMembers(products: seq<Product>, id: string, p: Product)
    ensures p in RemoveProduct(products, id) <==> p in products && p.id != id
  {
    if products != [] {
      var init, last := products[..|products| - 1], products[|products| - 1];
      RemoveProductMembers(init, id, p);
      assert products == init + [last];
    }
  }

  /** The filter keeps the other products in order: removing from a concatenation
      removes from each part. */
  lemma {:induction false} RemoveProductAppend(a: seq<Product>, b: seq<Product>, id: string)
    ensures RemoveProduct(a + b, id) == RemoveProduct(a, id) + RemoveProduct(b, id)
    decreases |b|
  {
    if b == [] {
      assert a + b == a;
    } else {
      var init, last := b[..|b| - 1], b[|b| - 1];
      assert (a + b)[..|a + b| - 1] == a + init;
      RemoveProductAppend(a, init, id);
    }
  }

  /** Removing an id no product has changes nothing. */
  lemma {:induction false} RemoveAbsent(products: seq<Product>, id: string)
    requires forall k :: 0 <= k < |products| ==> products[k].id != id
    ensures RemoveProduct(products, id) == products
  {
    if products != [] {
      var init, last := products[..|products| - 1], products[|products| - 1];
      assert forall k :: 0 <= k < |init| ==> init[k] == products[k];
      RemoveAbsent(init, id);
      assert init + [last] == products;
    }
  }

  class FavouritesPage {
    var products: seq<Product>
    var loading: bool
    var processingIds: set<string>
    /** The ids sent to the like endpoint, in order. */
    ghost var requests: seq<string>
    ghost var toasts: seq<Toast>

    /** Every id in flight has been sent and not yet answered. */
    ghost predicate Valid()
      reads this
    {
      forall id :: id in processingIds ==> id in requests
    }

    constructor()
      ensures Valid()
      ensures products == [] && loading && processingIds == {} && requests == [] && toasts == []
    {
      products := [];
      loading := true;
      processingIds := {};
      requests := [];
      toasts := [];
    }

    /** The load: an array replaces the list, anything else empties it, and the
        page stops loading in every case. */
    method Load(reply: LoadReply)
      requires Valid()
      modifies this
      ensures Valid()
      ensures products == if reply.Loaded? && reply.products.Some? then reply.products.value else []
      ensures !loading
      ensures processingIds == old(processingIds) && requests == old(requests) && toasts == old(toasts)
    {
      if reply.Loaded? && reply.products.Some? {
        products := reply.products.value;
      } else {
        products := [];
      }
      loading := false;
    }

    /** The click: ignored if the id is in flight; otherwise the id is marked in
        flight before the request goes out. */
    method StartToggle(productId: string) returns (sent: bool)
      requires Valid()
      modifies this
      ensures Valid()
      ensures sent <==> productId !in old(processingIds)
      ensures sent ==> processingIds == old(processingIds) + {productId} && requests == old(requests) + [productId]
      ensures !sent ==> processingIds == old(processingIds) && requests == old(requests)
      ensures products == old(products) && loading == old(loading) && toasts == old(toasts)
    {
      if productId in processingIds {
        return false;
      }
      processingIds := processingIds + {productId};
      requests := requests + [productId];
      sent := true;
    }

    /** The reply to a request that went out: on success the product leaves the
        page, otherwise the list stays; the id is released whatever happened. */
    method FinishToggle(productId: string, reply: LikeReply)
      requires Valid() && productId in processingIds
      modifies this
      ensures Valid()
      ensures products == if reply.LikeReply? && reply.success then RemoveProduct(old(products), productId)
                          else old(products)
      ensures processingIds == old(processingIds) - {productId}
      ensures toasts == old(toasts) + [
        match reply
        case LikeThrew => Error(MsgServerError)
        case LikeReply(success, message) =>
          if success then Success(message)
          else Error(if message == "" then MsgUpdateFailed else message)]
      ensures requests == old(requests) && loading == old(loading)
    {
      match reply {
        case LikeThrew =>
          toasts := toasts + [Error(MsgServerError)];
        case LikeReply(success, message) =>
          if success {
            products := RemoveProduct(products, productId);
            toasts := toasts + [Success(message)];
          } else {
            toasts := toasts + [Error(if message == "" then MsgUpdateFailed else message)];
          }
      }
      processingIds := processingIds - {productId};
    }
  }

  /** Two clicks on the same heart before the first reply: the second sends
      nothing, and once the reply is in, the id is free again and the product is
      gone from the page. */
  method DoubleClick(initial: seq<Product>, id: string, message: string)
    returns (first: bool, second: bool, ghost requests: seq<string>, inFlight: set<string>, shown: seq<Product>)
    ensures first && !second
    ensures requests == [id] && inFlight == {}
    ensures shown == RemoveProduct(initial, id)
    ensures forall p :: p in shown ==> p.id != id
  {
    var page := new FavouritesPage();
    page.Load(Loaded(Some(initial)));
    first := page.StartToggle(id);
    second := page.StartToggle(id);
    page.FinishToggle(id, LikeReply(true, message));
    requests, inFlight, shown := page.requests, page.processingIds, page.products;
    forall p | p in shown ensures p.id != id {
      RemoveProductMembers(initial, id, p);
    }
  }
}
