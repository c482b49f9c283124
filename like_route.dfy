/** `PUT /api/user/like` (app/api/user/like/route.js): toggles a product id in the
    signed-in user's `likedProducts` list and saves the user. The user collection is
    an object whose `likedProducts` map the handler updates in place. */
module LikeRoute {
  import opened Common
  import opened Auth

  /** The JSON body: unparseable, or an object whose `itemId` may be missing. */
  datatype Body = Unparseable | Body(itemId: Option<string>)

  datatype Reply = Reply(status: int, success: bool, message: string)

  const MsgUnauthenticated := "Vous devez être connecté pour faire cette action."
  const MsgMissingId := "ID manquant."
  const MsgUnknownUser := "Utilisateur introuvable."
  const MsgRemoved := "Retiré des favoris."
  const MsgAdded := "Ajouté aux favoris."
  const MsgServerError := "Erreur serveur."

  /** `!itemId`: missing or empty. */
  predicate MissingId(itemId: Option<string>) {
    itemId.None? || itemId.value == ""
  }

  class UserStore {
    /** User id to that user's document: `Some(list)` when the document holds a
        `likedProducts` array, `None` when it has none. The user schema
        (models/User.js) declares no such path, so a user created by sign-up
        reads as `None`. */
    var likedProducts: map<string, Option<seq<string>>>

    constructor(initial: map<string, Option<seq<string>>>)
      ensures likedProducts == initial
    {
      likedProducts := initial;
    }

    /** The handler. Checks run in the order token, body, user; reading a missing
        array throws, and so does a rejected `save`, both giving 500. Only a
        successful save writes, and it writes only that user's list.
        `saveSucceeds` is whether `user.save()` resolves. */
    method Put(payload: Option<Payload>, body: Body, saveSucceeds: bool) returns (r: Reply)
      modifies this
      ensures payload.None? ==>
                r == Reply(401, false, MsgUnauthenticated) && likedProducts == old(likedProducts)
      ensures payload.Some? && body.Unparseable? ==>
                r == Reply(500, false, MsgServerError) && likedProducts == old(likedProducts)
      ensures payload.Some? && body.Body? && MissingId(body.itemId) ==>
                r == Reply(400, false, MsgMissingId) && likedProducts == old(likedProducts)
      ensures payload.Some? && body.Body? && !MissingId(body.itemId) && payload.value.id !in old(likedProducts) ==>
                r == Reply(404, false, MsgUnknownUser) && likedProducts == old(likedProducts)
      ensures payload.Some? && body.Body? && !MissingId(body.itemId) && payload.value.id in old(likedProducts)
              && (old(likedProducts)[payload.value.id].None? || !saveSucceeds) ==>
                r == Reply(500, false, MsgServerError) && likedProducts == old(likedProducts)
      ensures payload.Some? && body.Body? && !MissingId(body.itemId) && payload.value.id in old(likedProducts)
              && old(likedProducts)[payload.value.id].Some? && saveSucceeds ==>
                var id, item := payload.value.id, body.itemId.value;
                var before := old(likedProducts)[id].value;
                && likedProducts == old(likedProducts)[id := Some(Toggle(before, item))]
                && r == Reply(200, true, if item in before then MsgRemoved else MsgAdded)
      ensures r.status != 200 ==> likedProducts == old(likedProducts)
    {
      if payload.None? {
        return Reply(401, false, MsgUnauthenticated);
      }
      if body.Unparseable? {
        return Reply(500, false, MsgServerError);
      }
      if MissingId(body.itemId) {
        return Reply(400, false, MsgMissingId);
      }
      var id, item := payload.value.id, body.itemId.value;
      if id !in likedProducts {
        return Reply(404, false, MsgUnknownUser);
      }
      if likedProducts[id].None? {
        return Reply(500, false, MsgServerError);
      }
      var liked := likedProducts[id].value;
      if item in liked {
        liked := Without(liked, item);
        if !saveSucceeds {
          return Reply(500, false, MsgServerError);
        }
        likedProducts := likedProducts[id := Some(liked)];
        return Reply(200, true, MsgRemoved);
      }
      liked := liked + [item];
      if !saveSucceeds {
        return Reply(500, false, MsgServerError);
      }
      likedProducts := likedProducts[id := Some(liked)];
      r := Reply(200, true, MsgAdded);
    }
  }

  /** Two successful requests for the same, initially absent, id leave the
      user's list as it was, and the second says the id was removed. */
  method TwoTogglesRestore(p: Payload, item: string, liked: seq<string>)
    returns (first: Reply, second: Reply, after: Option<seq<string>>)
    requires item != "" && item !in liked
    ensures first == Reply(200, true, MsgAdded) && second == Reply(200, true, MsgRemoved)
    ensures after == Some(liked)
  {
    var store := new UserStore(map[p.id := Some(liked)]);
    first := store.Put(Some(p), Body(Some(item)), true);
    second := store.Put(Some(p), Body(Some(item)), true);
    ToggleTwiceRestores(liked, item);
    after := store.likedProducts[p.id];
  }

  /** A user document without a `likedProducts` array, such as one created by
      sign-up under the user schema as declared, gets 500 for every request that
      passes the token and body checks, and nothing is written. */
  method MissingArrayAlwaysFails(p: Payload, item: string, saveSucceeds: bool)
    returns (r: Reply, after: Option<seq<string>>)
    requires item != ""
    ensures r == Reply(500, false, MsgServerError)
    ensures after == None
  {
    var store := new UserStore(map[p.id := None]);
    r := store.Put(Some(p), Body(Some(item)), saveSucceeds);
    after := store.likedProducts[p.id];
  }
}
