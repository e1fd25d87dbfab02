/**
 The offer document and its fixed-arity `product_details` list: five
 single-key entries, BRAND, SIZE, CONDITION, COLOR, CITY, in that order.
 */
module Offers {
  import opened Common
  import opened Auth

  datatype Tag = BRAND | SIZE | CONDITION | COLOR | CITY

  /** One single-key entry such as `{ BRAND: brand }`; the value may be undefined. */
  datatype Detail = Detail(tag: Tag, value: Option<string>)

  const TagOrder: seq<Tag> := [BRAND, SIZE, CONDITION, COLOR, CITY]

  /** Where `tag` sits in the fixed order. */
  function Position(tag: Tag): (p: nat)
    ensures p < |TagOrder| && TagOrder[p] == tag
  {
    match tag
    case BRAND => 0
    case SIZE => 1
    case CONDITION => 2
    case COLOR => 3
    case CITY => 4
  }

  /** A stored offer. `price` is what the store keeps after casting the form value. */
  datatype Offer = Offer(id: nat, title: Option<string>, description: Option<string>,
                         price: Option<int>, details: seq<Detail>, owner: Identity,
                         image: Option<ImageRef>)

  /** Exactly five entries, tagged in the fixed order. */
  predicate WellShaped(details: seq<Detail>)
  {
    |details| == |TagOrder| && forall i :: 0 <= i < |details| ==> details[i].tag == TagOrder[i]
  }

  /** The value of the first entry carrying `tag`, as a lookup by key would find it. */
  function DetailOf(details: seq<Detail>, tag: Tag): (r: Option<Option<string>>)
    ensures r.Some? <==> exists i :: 0 <= i < |details| && details[i].tag == tag
    ensures r.Some? ==> exists i :: 0 <= i < |details| && details[i] == Detail(tag, r.value)
  {
    match FindFirst(details, (d: Detail) => d.tag == tag)
    case None => None
    case Some(i) => Some(details[i].value)
  }

  /** In a well-shaped list every tag is present exactly once, at its fixed position. */
  lemma WellShapedTagsOnce(details: seq<Detail>, tag: Tag, i: int, j: int)
    requires WellShaped(details)
    requires 0 <= i < |details| && 0 <= j < |details|
    requires details[i].tag == tag && details[j].tag == tag
    ensures i == j
  {
  }
}
