# Catalog, masters and gallery lists — a Dafny model of `js/data-loader.js`

The page's script loads static JSON lists and renders them. It has three catalog lists (board games, RPGs, wargames), a paginated list of event hosts ("masters") and a paginated photo gallery. This project models the bookkeeping behind that rendering, separated from the fetch and DOM plumbing:

- `Shuffle` (`shuffle.dfy`): `shuffleArray`, the in-place Fisher–Yates shuffle. It is a method over an `array` with a descending loop. The random index of each step is a parameter `draws[i]` in `0..i`. The method is proved equal to the functional shuffle `Shuffled`, which is proved to be a permutation.
- `Sampling` (`sampling.dfy`): the selection branch of `loadGames`. A positive `count` gives a prefix of a shuffled copy. Otherwise the dataset is shown unchanged.
- `Format` (`format.dfy`) with `Text` (`text.dfy`): `formatPlayers`, `formatTime`, `formatTags`, the masters' `systems.join(", ")` and the gallery's alt fallback. Each formatter has a reader beside it (`ParsePlayers`, `ParseTime`, `Labels`, `SplitSystems`). A round-trip lemma shows the output determines the input.
- `Views` (`views.dfy`): what each card template shows for one item (catalog card, master card, gallery image), as plain values.
- `Pagination` (`pagination.dfy`): the two windowed lists. They are one `Paginator` class with fields `data`, `index` and the constant `visible`, which is 3 for masters and 5 for gallery. `Next`, `Prev`, `Load`, `Render` (the visible window) and `UpdateArrows` (the arrow state) are its methods. The pure transition functions `NextIndex` and `PrevIndex` specify them. The lemmas cover the cursor invariant `0 <= index <= max(0, |data| - visible)`, repeated clicks, the arrows, and reachability of every item.
- `Items` and `Optional`: the JSON records (catalog item, master, gallery item) and optional fields.

Behaviour kept exactly as the code has it:
- `loadMasters`/`loadGallery` assign the new dataset and do not reset the cursor. `Paginator.Load` does the same, so it re-establishes the invariant only when the cursor is 0. That is the case for the page's single load before any click.
- A sample is a sub-multiset of the dataset. It has no repeats when the dataset has none (`SelectItems`); a dataset with repeated items can give a sample with repeats.
- JavaScript truthiness is kept: an empty `alt`, `image` or `description` counts as absent.

## Model

| member | source | states |
|---|---|---|
| Text.IntToString | js/data-loader.js:14 | the text of a whole number is non-empty and made only of digits and a minus sign, so it never holds the en dash or a comma |
| Text.IntRoundTrip | js/data-loader.js:14 | the decimal text a template literal gives a whole number reads back as that number |
| Format.RangeText | js/data-loader.js:13-16 | the number part of a players or time text is non-empty and holds the en dash exactly when min differs from max |
| Format.FormatPlayers | js/data-loader.js:11-17 | empty exactly when players are absent; otherwise starts with the people glyph and contains the en dash exactly when min differs from max |
| Format.PlayersRoundTrip | js/data-loader.js:11-17 | the players text determines the players value: reading it back gives the input, absent included |
| Format.FormatTime | js/data-loader.js:19-25 | empty exactly when time is absent; otherwise clock glyph prefix, " хв" suffix, en dash exactly when min differs from max |
| Format.TimeRoundTrip | js/data-loader.js:19-25 | the time text determines the time value: reading it back gives the input, absent included |
| Format.TagBadge | js/data-loader.js:31 | a badge is the tag between the span tags, and its label reads back as the tag |
| Format.Badges | js/data-loader.js:31 | one badge per tag: the same count, and badge i is the badge of tag i |
| Format.FormatTags | js/data-loader.js:27-34 | no badges exactly when tags are absent or empty |
| Format.TagsRoundTrip | js/data-loader.js:27-34 | the badge labels are the tags, in order and with repeats (no de-duplication) |
| Format.BadgesAppend | js/data-loader.js:31 | badges of a concatenation are the concatenation of the badges: order is kept and nothing is merged |
| Format.JoinSystems | js/data-loader.js:104 | empty for no systems, the one name for one system, starts with the first name, and holds a comma exactly when it joins several comma-free names |
| Format.SystemsRoundTrip | js/data-loader.js:104 | the systems line lists the systems in order: cutting it at each ", " gives a non-empty list back when no name has a comma |
| Format.AltText | js/data-loader.js:168 | the alt text is never empty; a non-empty alt is used as is, an absent or empty one becomes "Фото клубу" |
| Shuffle.ShuffleArray | js/data-loader.js:3-9 | the array ends as the functional shuffle of its old contents under the draws, and holds the same multiset |
| Shuffle.ShuffleFromPermutes | js/data-loader.js:4-7 | every run of swap steps keeps the multiset of elements |
| Shuffle.ShuffledPermutes | js/data-loader.js:3-9 | the whole shuffle is a permutation of its input |
| Shuffle.StayingDrawsKeepOrder | js/data-loader.js:4-7 | when every draw picks its own index, the shuffle leaves the order unchanged |
| Sampling.SelectItems | js/data-loader.js:40-44 | count <= 0 shows the data itself; count > 0 shows exactly min(count, \|data\|) items: the prefix of the shuffle, a sub-multiset of the data, without repeats when the data has none, and all of it when count >= \|data\| |
| Pagination.WindowOf | js/data-loader.js:91 | the window is data[index .. min(index + visible, \|data\|)]: exactly min(visible, \|data\| - index) items with item k being data[index + k], and empty when the cursor is at or past the end (gallery: line 163) |
| Pagination.FullWindows | js/data-loader.js:91 | with at least `visible` items, every in-bounds window holds exactly `visible` items |
| Pagination.EveryItemReachable | js/data-loader.js:91 | every item is shown in the window of some in-bounds cursor |
| Pagination.NextIndex | js/data-loader.js:139-140 | the cursor moves up by exactly one when index < \|data\| - visible, and stays put otherwise (gallery: lines 198-199) |
| Pagination.PrevIndex | js/data-loader.js:131-132 | the cursor moves down by exactly one when index > 0, and stays put otherwise (gallery: lines 190-191) |
| Pagination.ArrowsFor | js/data-loader.js:121-126 | hidden exactly when \|data\| <= visible; when shown, prev disabled exactly at 0 and next disabled exactly when index >= \|data\| - visible (gallery: lines 180-185) |
| Pagination.StepsStayInBounds | js/data-loader.js:130-144 | in bounds, next steps +1 exactly below the largest index, prev steps -1 exactly above 0, and both stay in bounds (gallery: lines 189-203) |
| Pagination.StepsUndo | js/data-loader.js:130-144 | next then prev, and prev then next, return to the start wherever the first click moved |
| Pagination.NextTimesClamps | js/data-loader.js:138-144 | k clicks on next from an in-bounds cursor reach min(index + k, max index): from 0, \|data\| - visible clicks reach the end and further clicks do nothing |
| Pagination.PrevTimesClamps | js/data-loader.js:130-136 | k clicks on prev reach max(index - k, 0) |
| Pagination.ArrowsMatchSteps | js/data-loader.js:114-128 | arrows hidden exactly when \|data\| <= visible, and then no click moves; when shown, a button is disabled exactly when its click changes nothing (gallery: lines 173-187) |
| Pagination.Paginator.constructor | js/data-loader.js:74-76 | empty dataset, cursor 0, the given window size, invariant holds |
| Pagination.Paginator.Load | js/data-loader.js:78-84 | the dataset is replaced and the cursor kept; the invariant holds afterwards when the cursor was 0 |
| Pagination.Paginator.Next | js/data-loader.js:138-144 | the cursor becomes NextIndex of the old one (+1 or unchanged), data untouched, invariant preserved (gallery: lines 197-203) |
| Pagination.Paginator.Prev | js/data-loader.js:130-136 | the cursor becomes PrevIndex of the old one (-1 or unchanged), data untouched, invariant preserved (gallery: lines 189-195) |
| Pagination.Paginator.Render | js/data-loader.js:86-112 | returns the window at the cursor, full whenever the invariant holds and the data fills a window (gallery: lines 158-171) |
| Pagination.Paginator.UpdateArrows | js/data-loader.js:114-128 | hidden exactly when the data fits the window; when shown, each button is disabled exactly when its click would not move |
| Pagination.MastersWalkthrough | js/data-loader.js:74-144 | seven masters, window 3: five clicks on next give cursors 0, 1, 2, 3, 4, 4, and then only next is disabled |
| Pagination.GalleryWalkthrough | js/data-loader.js:146-203 | five gallery images with window 5: all are shown, the arrows are hidden, and a click on next leaves the cursor at 0 |
| Views.GameCardOf | js/data-loader.js:50-71 | title and description kept; image shown exactly when present and non-empty; badges, players and time are FormatTags, FormatPlayers and FormatTime of the item's fields, so badges are empty exactly when tags are absent or empty, and players and time are empty exactly when absent |
| Views.MasterCardOf | js/data-loader.js:93-111 | portrait and name kept; the systems line is JoinSystems of the systems, which splits back into the list; empty description exactly when absent or empty |
| Views.GalleryImageOf | js/data-loader.js:165-170 | source kept, alt never empty, the default used exactly when alt is absent or empty |
| Views.CardExample | js/data-loader.js:54-68 | a card with players 2 to 4 and no tags shows "👥 2–4" and no badges |
| Views.FormatExamples | js/data-loader.js:11-25 | single value for equal ends, en dash range otherwise, empty when absent, for players and time |

## Left out

- Fetching and parsing (`fetch`, `response.json()`, `async`/`await`, lines 37-38, 79-80, 151-152): a dataset arrives as a parameter of `Paginator.Load` or `Sampling.SelectItems`. Network and parse failures are not modelled.
- `Math.random()` and the uniformity of the shuffle: the random index of each step is the parameter `draws[i]`, constrained to `0..i`.
- DOM work (`getElementById`, `innerHTML`, `createElement`, `appendChild`, `style.display`, `disabled`): only the decisions are modelled. These are the shown items, the card contents and the arrow state. The early returns when a container or button is missing are not modelled.
- Template markup and whitespace: `Format.FormatTags` yields the list of badges, not the joined string inside the tags `<div>`.
- No HTML escaping happens in the templates, so there is nothing to model there.
- Numbers are unbounded whole numbers (`int`). JavaScript numbers are doubles, and three cases differ. A fractional JSON number prints with a decimal point. A whole number of magnitude 1e21 or more prints in exponent form (`1e+21`), where the model prints all its digits. Whole numbers above 2^53 are not represented exactly.
- The `DOMContentLoaded` bootstrap (lines 205-211) only wires events. The concurrent independent loads and the last-writer-wins overwrite of an in-flight load are not modelled.
- Pagination.Paginator.Load: the invariant is promised only when the cursor was 0 before the load. The code does not reset the cursor, so a reload after clicks could leave it out of bounds. The page never reloads after clicks.
- Format.SystemsRoundTrip: requires a non-empty list whose names hold no comma. A ", " inside a name makes the joined line ambiguous, and `[]` and `[""]` both join to "".
