/** The fixed scenario catalog of constants.ts. */
module Catalog {
  import opened Types

  const Scenarios: seq<Scenario> := [
    Scenario(
      "mug",
      "Coffee Mug",
      "Place your product design on a ceramic coffee mug on a wooden table.",
      "A high-quality product photography shot. Place the design/object from the source image onto a white ceramic coffee mug. The mug is sitting on a rustic wooden table with soft morning lighting. Ensure the product logo/design is clearly visible on the curved surface of the mug.",
      "coffee"),
    Scenario(
      "billboard",
      "City Billboard",
      "Display your product on a massive billboard in a busy city center.",
      "A realistic wide shot of a busy city street (like Times Square). There is a large digital billboard featuring the object from the source image. The product should look massive and impressive, integrated into a professional advertisement layout on the screen.",
      "layout"),
    Scenario(
      "tshirt",
      "T-Shirt Model",
      "A model wearing a t-shirt featuring your product/design.",
      "A fashion photography shot of a young stylish model wearing a plain white cotton t-shirt. The object/design from the source image is printed on the front center of the t-shirt. The fabric texture and lighting should look realistic.",
      "shirt"),
    Scenario(
      "magazine",
      "Magazine Spread",
      "A glossy magazine advertisement spread.",
      "A flat-lay photography shot of an open glossy magazine. The page features a full-page advertisement of the object from the source image. The lighting is high-key studio lighting, making the product look premium and desirable.",
      "book-open"),
    Scenario(
      "tote",
      "Canvas Tote Bag",
      "Your product printed on an eco-friendly canvas tote bag.",
      "A lifestyle shot of a canvas tote bag hanging on a shoulder or sitting on a park bench. The object/design from the source image is printed on the side of the tote bag. Natural sunlight, depth of field.",
      "shopping-bag"),
    Scenario(
      "instagram",
      "Social Media Story",
      "A vertical aspect ratio aesthetic shot for Instagram.",
      "A vertical 9:16 product shot optimized for social media. The object from the source image is placed in a trendy, aesthetic environment with pastel colored background props. Soft shadows, ring light reflection.",
      "smartphone")
  ]

  /** The keys of the selector's icon table, in its order. */
  const IconKeys: seq<string> := ["coffee", "layout", "shirt", "book-open", "shopping-bag", "smartphone"]

  /** The ids of the catalog, in catalog order. */
  function Ids(): (ids: seq<string>)
    ensures |ids| == |Scenarios|
    ensures forall i :: 0 <= i < |ids| ==> ids[i] == Scenarios[i].id
  {
    seq(|Scenarios|, i requires 0 <= i < |Scenarios| => Scenarios[i].id)
  }

  /** Six scenarios, with the six ids below, pairwise distinct. */
  lemma CatalogShape()
    ensures |Scenarios| == 6
    ensures Ids() == ["mug", "billboard", "tshirt", "magazine", "tote", "instagram"]
    ensures forall i, j :: 0 <= i < j < |Scenarios| ==> Scenarios[i].id != Scenarios[j].id
  {
    assert Ids() == ["mug", "billboard", "tshirt", "magazine", "tote", "instagram"];
  }

  /** The names of the catalog, in catalog order. */
  function Names(): (names: seq<string>)
    ensures |names| == |Scenarios|
    ensures forall i :: 0 <= i < |names| ==> names[i] == Scenarios[i].name
  {
    seq(|Scenarios|, i requires 0 <= i < |Scenarios| => Scenarios[i].name)
  }

  /** The six scenario names, in catalog order. */
  lemma CatalogNames()
    ensures Names() == ["Coffee Mug", "City Billboard", "T-Shirt Model", "Magazine Spread", "Canvas Tote Bag", "Social Media Story"]
  {
    assert Names() == ["Coffee Mug", "City Billboard", "T-Shirt Model", "Magazine Spread", "Canvas Tote Bag", "Social Media Story"];
  }

  /** No two scenarios share a name. */
  lemma CatalogNamesDistinct()
    ensures forall i, j :: 0 <= i < j < |Scenarios| ==> Scenarios[i].name != Scenarios[j].name
  {
    CatalogNames();
    var names := Names();
    forall i, j | 0 <= i < j < |Scenarios|
      ensures Scenarios[i].name != Scenarios[j].name
    {
      assert names[i] == Scenarios[i].name && names[j] == Scenarios[j].name;
    }
  }

  /** Every scenario's icon key is one the selector can display. */
  lemma IconsAreKnown()
    ensures forall i :: 0 <= i < |Scenarios| ==> Scenarios[i].icon in IconKeys
  {
  }
}
