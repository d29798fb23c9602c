/**
 * The records the page loads from its static JSON files. Each dataset is an
 * ordered sequence of one of these; none of them is ever mutated.
 */
module Items {
  import opened Optional

  /** A `{min, max}` pair, used for the player count and the play time. */
  datatype Range = Range(min: int, max: int)

  /** One entry of a catalog file (board games, RPGs, wargames). */
  datatype CatalogItem = CatalogItem(
    title: string,
    description: string,
    image: Option<string>,
    tags: Option<seq<string>>,
    players: Option<Range>,
    time: Option<Range>)

  /** One entry of data/masters.json. */
  datatype Master = Master(
    name: string,
    image: string,
    systems: seq<string>,
    description: Option<string>)

  /** One entry of data/gallery.json. */
  datatype GalleryItem = GalleryItem(image: string, alt: Option<string>)
}
