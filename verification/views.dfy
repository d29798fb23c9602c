/**
 * What each template shows for one item, as plain values: the decisions the
 * card markup is built from (which image, which texts, which badges).
 */
module Views {
  import opened Optional
  import opened Items
  import opened Format

  /** A catalog card: the image (alt text is the title) is shown only when the item has a non-empty one. */
  datatype GameCard = GameCard(
    image: Option<string>,
    title: string,
    description: string,
    badges: seq<string>,
    players: string,
    time: string)

  function GameCardOf(item: CatalogItem): (card: GameCard)
    ensures card.image.Some? <==> item.image.Some? && item.image.value != ""
    ensures card.image.Some? ==> card.image == item.image
    ensures card.title == item.title && card.description == item.description
    ensures card.badges == [] <==> item.tags.None? || item.tags.value == []
    ensures card.players == "" <==> item.players.None?
    ensures card.time == "" <==> item.time.None?
    ensures card.badges == FormatTags(item.tags)
    ensures card.players == FormatPlayers(item.players) && card.time == FormatTime(item.time)
  {
    var image := if item.image.Some? && item.image.value != "" then item.image else None;
    GameCard(image, item.title, item.description,
      FormatTags(item.tags), FormatPlayers(item.players), FormatTime(item.time))
  }

  /** A master card: portrait (alt text is the name), name, systems line, description paragraph. */
  datatype MasterCard = MasterCard(portrait: string, name: string, systems: string, description: string)

  function MasterCardOf(master: Master): (card: MasterCard)
    ensures card.portrait == master.image && card.name == master.name
    ensures card.systems == JoinSystems(master.systems)
    ensures card.description == "" <==> master.description.None? || master.description.value == ""
    ensures master.description.Some? ==> card.description == master.description.value
    ensures master.systems != [] && CommaFree(master.systems) ==> SplitSystems(card.systems) == master.systems
  {
    var description := match master.description case Some(d) => d case None => "";
    var card := MasterCard(master.image, master.name, JoinSystems(master.systems), description);
    if master.systems != [] && CommaFree(master.systems) then
      SystemsRoundTrip(master.systems); card
    else card
  }

  /** A gallery image: its source and a never-empty alt text. */
  datatype GalleryImage = GalleryImage(src: string, alt: string)

  function GalleryImageOf(item: GalleryItem): (img: GalleryImage)
    ensures img.src == item.image && img.alt != ""
    ensures item.alt.Some? && item.alt.value != "" ==> img.alt == item.alt.value
    ensures item.alt.None? || item.alt.value == "" ==> img.alt == DefaultAlt
  {
    GalleryImage(item.image, AltText(item.alt))
  }

  /** A titled item with players 2 to 4 and no tags shows its title, description and "👥 2–4", and no badges. */
  lemma CardExample()
    ensures GameCardOf(CatalogItem("A", "d", None, None, Some(Range(2, 4)), None))
      == GameCard(None, "A", "d", [], "👥 2–4", "")
  {
  }

  /** Equal ends give the single-value form, different ends the range form, absence the empty string. */
  lemma FormatExamples()
    ensures FormatPlayers(Some(Range(4, 4))) == "👥 4"
    ensures FormatPlayers(Some(Range(2, 5))) == "👥 2–5"
    ensures FormatPlayers(None) == ""
    ensures FormatTime(Some(Range(30, 30))) == "⏱ 30 хв"
    ensures FormatTime(Some(Range(60, 120))) == "⏱ 60–120 хв"
    ensures FormatTime(None) == ""
  {
  }
}
