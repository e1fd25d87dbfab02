/**
 `POST /offer/publish`: behind `isAuthenticated`, the handler builds the offer
 (owner = `req.user`), uploads the picture, attaches the upload result, and
 saves. The document is saved once, after the upload has resolved.
 */
module OfferPublish {
  import opened Common
  import opened Users
  import opened Auth
  import opened Offers

  /** The publish form fields. `price` is the value the store casts it to. */
  datatype PublishForm = PublishForm(title: Option<string>, description: Option<string>,
                                     price: Option<int>, condition: Option<string>,
                                     city: Option<string>, brand: Option<string>,
                                     size: Option<string>, color: Option<string>)

  /** Which form field feeds which tag. */
  function FieldFor(form: PublishForm, tag: Tag): Option<string>
  {
    match tag
    case BRAND => form.brand
    case SIZE => form.size
    case CONDITION => form.condition
    case COLOR => form.color
    case CITY => form.city
  }

  function ProductDetails(form: PublishForm): (d: seq<Detail>)
    ensures WellShaped(d)
    ensures forall i :: 0 <= i < |d| ==> d[i].value == FieldFor(form, d[i].tag)
  {
    [Detail(BRAND, form.brand), Detail(SIZE, form.size), Detail(CONDITION, form.condition),
     Detail(COLOR, form.color), Detail(CITY, form.city)]
  }

  /** Looking any tag up in the built list finds that tag's form field, undefined or not. */
  lemma ProductDetailsLookup(form: PublishForm, tag: Tag)
    ensures DetailOf(ProductDetails(form), tag) == Some(FieldFor(form, tag))
  {
    var d := ProductDetails(form);
    var r := DetailOf(d, tag);
    var p := Position(tag);
    assert d[p] == Detail(tag, FieldFor(form, tag));
    var i :| 0 <= i < |d| && d[i] == Detail(tag, r.value);
    WellShapedTagsOnce(d, tag, i, p);
  }

  /** The offer as built before the upload: no image yet. */
  function Draft(id: nat, owner: Identity, form: PublishForm): (o: Offer)
    ensures o.owner == owner && o.image.None? && WellShaped(o.details)
    ensures o.title == form.title && o.description == form.description && o.price == form.price
    ensures o.id == id && o.details == ProductDetails(form)
  {
    Offer(id, form.title, form.description, form.price, ProductDetails(form), owner, None)
  }

  /** The handler body after authentication: build, upload, attach, save. */
  function Publish(offers: seq<Offer>, owner: Identity, form: PublishForm, id: nat,
                   upload: Attempt<ImageRef>, save: Attempt<()>): (out: Outcome<Offer, seq<Offer>>)
    ensures upload.Thrown? ==> out == Outcome(Error(400, upload.message), offers)
    ensures upload.Done? && save.Thrown? ==> out == Outcome(Error(400, save.message), offers)
    ensures out.reply.Ok? <==> upload.Done? && save.Done?
    ensures out.reply.Error? ==> out.store == offers && out.reply.status == 400
    ensures out.reply.Ok? ==>
              && out.store == offers + [out.reply.body]
              && out.reply.body == Draft(id, owner, form).(image := Some(upload.value))
  {
    var draft := Draft(id, owner, form);
    match upload
    case Thrown(m) => Outcome(Error(400, m), offers)
    case Done(ref) =>
      var offer := draft.(image := Some(ref));
      match save
      case Thrown(m) => Outcome(Error(400, m), offers)
      case Done(_) => Outcome(Ok(offer), offers + [offer])
  }

  /** The whole route: the gate, then the handler with `req.user` as owner. */
  function PublishRoute(users: seq<User>, authorization: Option<string>, offers: seq<Offer>,
                        form: PublishForm, id: nat, upload: Attempt<ImageRef>,
                        save: Attempt<()>): (out: Outcome<Offer, seq<Offer>>)
    ensures IsAuthenticated(users, authorization).Reject? ==>
              out == Outcome(Error(401, Unauthorized), offers)
    ensures out.reply.Ok? ==>
              && IsAuthenticated(users, authorization).Next?
              && out.reply.body.owner == IsAuthenticated(users, authorization).user
              && out.store == offers + [out.reply.body]
    ensures out.reply.Error? ==> out.store == offers
    ensures IsAuthenticated(users, authorization).Next? ==>
              out == Publish(offers, IsAuthenticated(users, authorization).user, form, id, upload, save)
  {
    match IsAuthenticated(users, authorization)
    case Reject(status, message) => Outcome(Error(status, message), offers)
    case Next(who) => Publish(offers, who, form, id, upload, save)
  }

  /** A published offer is owned by the user whose token was presented, and its
      details carry the five form fields under their tags. */
  lemma PublishedOfferShape(users: seq<User>, authorization: Option<string>, offers: seq<Offer>,
                            form: PublishForm, id: nat, upload: Attempt<ImageRef>, save: Attempt<()>)
    requires PublishRoute(users, authorization, offers, form, id, upload, save).reply.Ok?
    ensures var o := PublishRoute(users, authorization, offers, form, id, upload, save).reply.body;
            && WellShaped(o.details)
            && (forall tag :: DetailOf(o.details, tag) == Some(FieldFor(form, tag)))
            && o.image == Some(upload.value)
            && exists i :: 0 <= i < |users| && o.owner == IdentityOf(users[i])
                           && users[i].token == BearerToken(authorization.value)
  {
    forall tag ensures DetailOf(ProductDetails(form), tag) == Some(FieldFor(form, tag)) {
      ProductDetailsLookup(form, tag);
    }
  }
}
