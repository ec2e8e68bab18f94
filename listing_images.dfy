/** The image a listing card shows: the item's first image, or a placeholder. */
module ListingImages {

  const Placeholder := "https://via.placeholder.com/400x300/cccccc/000000?text=No+Image"

  /** `images.length > 0 ? images[0] : placeholder`, as the listing and loan cards compute it. */
  function CardImage(images: seq<string>): (url: string)
    ensures images != [] ==> url == images[0]
    ensures images == [] ==> url == Placeholder
  {
    if |images| > 0 then images[0] else Placeholder
  }

  /** `images[0] || placeholder`, as the home page computes it: an empty first URL falls back too. */
  function FirstImageOr(images: seq<string>): (url: string)
    ensures url != ""
    ensures images != [] && images[0] != "" ==> url == images[0]
    ensures images == [] || images[0] == "" ==> url == Placeholder
  {
    if images != [] && images[0] != "" then images[0] else Placeholder
  }

  /** The two fallbacks agree except when the first image URL is the empty string. */
  lemma FallbacksAgree(images: seq<string>)
    ensures CardImage(images) == FirstImageOr(images) <==> images == [] || images[0] != ""
  {
  }
}
