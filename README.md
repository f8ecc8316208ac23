# Gallery rotation and review carousel of the MOX VOX page, in Dafny

This project models the stateful core of `js/main.js`, the script behind the
MOX VOX club and bar page:

- **Gallery rotation engine** (`gallery.dfy`, module `Gallery`, with the
  Fisher-Yates shuffle in `shuffle.dfy`, module `Shuffle`). The page keeps a
  pool of image names (`allImages`). It also keeps the names it shows
  (`visibleImages`) and one tile per shown name (`galleryItems`). The class
  `GalleryEngine` holds these three as fields. Its constructor `Load` is the
  selection part of `loadGalleryAssets`. `SwitchRandomImage` is the
  interval-driven `switchRandomImage`. `Resize` is the debounced rebuild on
  window resize. Each method is proved against pure functions (`Selection`,
  `Available`, `Rotate`). The lemmas about those functions state the
  guarantees:
  - a rotation replaces exactly one slot with a pool image that was not shown;
  - when every pool image is already shown, the rotation reshuffles instead;
  - the rotation is idle when the pool is no larger than the tile count;
  - visible images stay pairwise distinct when the pool has no repeated name.
- **Review carousel** (`carousel.dfy`, module `Carousel`). The class
  `ReviewCarousel` holds the closure state of `initReviewsAnimation`. It has
  one method per event: the autoplay tick, the deferred wrap to the first
  card, start and stop of autoplay, mouse and touch down, move and up, and
  resize. Its invariant keeps the index non-negative. It keeps the index
  below the number of real cards except while a wrap is pending, and allows
  at most one registered autoplay interval. `SnapIndex` is the snap rule that
  both release handlers share.
- **Open-now badge** (`badge.dfy`, module `OpenNowBadge`). `Status` maps the
  weekday and the time of day to the badge's indicator class and text.

Every random draw is a parameter whose `requires` gives the range that
`Math.floor(Math.random() * n)` can produce. These draws are the Fisher-Yates
swap index `j <= i`, the tile slot and the pick among the available images.
So each property holds for every possible outcome. The viewport width, the
measured card width, the pointer coordinates, the clock and the
reduced-motion preference are parameters too. A timer firing is a method
call. Pending timeouts are counted in the state (`pendingWraps`,
`pendingResumes`), so a callback runs only after something scheduled it.

Details of the model:
- `visibleImages` is a sequence of `Slot`s, where a slot is either
  `Shows(name)` or `Hole`. In JavaScript, `visibleImages[k] = x` with `k`
  past the end leaves holes, and `switchRandomImage` can do that. It draws
  its slot below `min(count, galleryItems.length)`. After the reshuffle path
  has shortened `visibleImages`, `galleryItems` can be longer than it until
  the next rebuild. `AssignSlot` models that assignment exactly.
- `RotateAlignment` states when tiles and visible slots still match after a
  rotation. The reshuffle path leaves them matched only when the tile count
  equals the new count. Otherwise the tiles from index `count` on keep
  images that `visibleImages` no longer tracks. The resize handler compares
  the new count with `visibleImages.length`, not with the number of tiles.
  So it does not repair this when the two lengths already agree.
- `StaleReleaseScenario` is a client method that shows a quirk of
  `handleMouseDown`: it resets `startX` but not `currentX`. A press and
  release without a move in between therefore measures the drag from the
  previous drag's `currentX` and can change the card.
- `handleTouchEnd` does not update `initialTranslate`, and `TouchEnd` does not
  either.

Four points where the code behaves in a way one might not expect, followed as written:
- the switching interval's period is drawn once, when `setInterval` is
  called (js/main.js:203-205), not again at every firing;
- the resize rebuild compares with `visibleImages.length` (js/main.js:416),
  not with the number of rendered tiles;
- the built-in fallback list names `IMG_20260110_163141.jpg` twice
  (js/main.js:86, js/main.js:90). So distinctness of the visible images is
  proved under an explicit distinct-pool hypothesis, not in general;
- the badge has no closing time, although the comment at js/main.js:1249
  mentions Sunday evening: on Sunday, as on Wednesday to Saturday, it reads
  "Open Now" from 11:00 until midnight, and `Status` follows that.

## Model

| member | source | states |
|---|---|---|
| `Shuffle.ShuffleArray` | js/main.js:148-155 | returns the array the swap loop produces for the given draws, with the same length and the same multiset of elements as the argument; the argument is a value and cannot change |
| `Shuffle.Swap` | js/main.js:152 | the destructuring swap: cell i gets the old cell j, cell j gets the old cell i, every other cell and the length are unchanged |
| `Shuffle.Rounds` | js/main.js:150-153 | the rounds still to do keep the length and never touch a cell at or above the current loop index |
| `Shuffle.Shuffled` | js/main.js:148-155 | the shuffle has the length of its argument |
| `Shuffle.RoundsPermute` | js/main.js:150-153 | by induction over the rounds: the remaining swaps keep the length and the multiset |
| `Shuffle.ShuffledPermutes` | js/main.js:148-155 | for every admissible draw sequence the shuffle is a permutation of its argument (same length, same multiset, same members) |
| `Shuffle.SwapKeepsDistinct` | js/main.js:152 | swapping two cells of a sequence without repeats leaves it without repeats |
| `Shuffle.RoundsKeepDistinct` | js/main.js:150-153 | by induction over the rounds: the remaining swaps keep a sequence without repeats free of repeats |
| `Shuffle.ShuffledKeepsDistinct` | js/main.js:148-155 | the shuffle of a sequence without repeats has no repeats |
| `Shuffle.ShortShuffleIsIdentity` | js/main.js:150 | for fewer than two elements the loop body never runs and the copy is returned unchanged |
| `Gallery.VisibleImageCount` | js/main.js:135-142 | the count is 1, 2 or 4; it is 1 exactly when the width is at most 768 and 4 exactly when it exceeds 1024 |
| `Gallery.VisibleImageCountMonotone` | js/main.js:135-142 | a wider viewport never gets fewer tiles |
| `Gallery.VisibleImageCountBreakpoints` | js/main.js:136-138 | widths 768, 769, 1024 and 1025 give 1, 2, 2 and 4 tiles |
| `Gallery.Selection` | js/main.js:117-118 | the initial or rebuilt selection has min(count, pool size) names, is a sub-multiset of the pool (all names from the pool) and has no repeats when the pool has none |
| `Gallery.Available` | js/main.js:231 | a name is available exactly when it is in the pool and no visible slot shows it; there are no more available names than pool entries, and no repeats when the pool has none |
| `Gallery.AvailableEmpty` | js/main.js:231-234 | when every pool name is shown, nothing is available (the reshuffle path is taken) |
| `Gallery.AssignSlot` | js/main.js:259 | the JavaScript index assignment: the slot holds the new name, every other old slot is unchanged, and an index past the end lengthens the array with holes in between |
| `Gallery.RefreshTiles` | js/main.js:238-242 | after a reshuffle, tile i shows the i-th new name when i is below the new length and keeps its image otherwise |
| `Gallery.Rotate` | js/main.js:221-263 | the whole of `switchRandomImage` on values; its own contract says that a rotation never adds or removes a tile and that every tile afterwards showed before or comes from the pool; the `Rotate*` lemmas below state the rest of what it does |
| `Gallery.RotateIdle` | js/main.js:226-247 | a rotation changes nothing when the pool is no larger than the count, or when there are no tiles and some pool name is not shown (with no tiles and every pool name shown, the reshuffle at lines 234-243 still runs) |
| `Gallery.RotateReshuffles` | js/main.js:234-243 | when every pool name is visible, the visible slots become a fresh selection of exactly count names, and only the tiles below count are redrawn to match them |
| `Gallery.RotateReplacesOneSlot` | js/main.js:249-259 | an incremental rotation picks a slot below min(count, tiles), puts there a pool name that was not visible before, leaves every other slot and tile unchanged, and updates that slot's tile |
| `Gallery.RotateKeepsDistinct` | js/main.js:221-263 | with a pool without repeats, every rotation keeps the visible names pairwise distinct and drawn from the pool |
| `Gallery.RotateAlignment` | js/main.js:234-243 | from tiles matching the visible slots, a rotation keeps them matched except on the reshuffle path, where they stay matched exactly when the tile count equals count |
| `Gallery.AlignedDistinctTiles` | js/main.js:121-125 | when tiles match distinct visible slots, no image is on two tiles |
| `Gallery.RotateAfterLoad` | js/main.js:221-263 | with a pool without repeats of count + 1 names, after a load the only available name is the one the shuffle left out, and the first rotation puts exactly that name into the drawn slot and its tile |
| `Gallery.GalleryEngine.Load` | js/main.js:99-128 | an empty list shows the placeholder, keeps the pool empty and starts no switching; otherwise the pool is the list, the visible names are the selection for the width, there is one tile per visible name, and switching starts unless reduced motion is preferred |
| `Gallery.GalleryEngine.RenderTiles` | js/main.js:121-125 | one tile per name, in order |
| `Gallery.GalleryEngine.RedrawTiles` | js/main.js:238-242 | each tile below the new selection's length shows the name at its index; the other tiles keep their image |
| `Gallery.GalleryEngine.StartImageSwitching` | js/main.js:190-206 | the old interval is cleared; a new one is installed exactly when reduced motion is not preferred |
| `Gallery.GalleryEngine.SwitchRandomImage` | js/main.js:221-263 | the new visible slots and tiles are those of `Rotate` for the current width and draws; the pool is unchanged and the state stays within the pool |
| `Gallery.GalleryEngine.Resize` | js/main.js:411-432 | when the count for the new width differs from the number of visible slots and the pool is not empty, the tiles and visible names become a fresh selection; otherwise nothing changes |
| `Carousel.SnapIndex` | js/main.js:1103-1112 | a drag of at most a third of a card keeps the index; the index drops by one exactly on a long drag to the right from above 0, rises by one exactly on a long drag to the left below the last real card, and never moves by more than one |
| `Carousel.SnapStaysInside` | js/main.js:1106-1111 | a drag that starts on a real card ends on a real card |
| `Carousel.SnapScenario` | js/main.js:1106-1111 | with cards 300 wide on card 2, a drag of 150 to the left goes to card 3 and a drag of 50 snaps back to card 2 |
| `Carousel.StaleReleaseScenario` | js/main.js:1082-1112 | on seven cards 300 wide, a drag of 400 to the left moves from card 0 to card 1; a later press and release without a move then measures from the stale `currentX` and moves on to card 2 |
| `Carousel.ReviewCarousel.constructor` | js/main.js:1011-1017 | the closure starts on card 0, not dragging, with zero offsets, no interval, and the first start of autoplay scheduled |
| `Carousel.ReviewCarousel.StopSlide` | js/main.js:1072-1077 | afterwards no interval is registered or held; nothing else changes |
| `Carousel.ReviewCarousel.StartSlide` | js/main.js:1067-1070 | the old interval is cleared first, so exactly one interval is registered afterwards; nothing else changes |
| `Carousel.ReviewCarousel.ResumeSlide` | js/main.js:1119-1120 | a scheduled resume runs `startSlide` and is consumed |
| `Carousel.ReviewCarousel.NextSlide` | js/main.js:1041-1062 | while dragging nothing changes; otherwise the index rises by one, the track and `initialTranslate` move to minus index times the card width, and a wrap is scheduled once the index reaches the number of real cards |
| `Carousel.ReviewCarousel.WrapToStart` | js/main.js:1053-1060 | the scheduled reset puts the index, the track and `initialTranslate` back to 0 |
| `Carousel.ReviewCarousel.MouseDown` | js/main.js:1082-1089 | starts dragging from the pointer position with the current card's offset and stops autoplay; `currentX` is left as it was |
| `Carousel.ReviewCarousel.MouseMove` | js/main.js:1091-1095 | no effect unless dragging; otherwise the track follows the pointer one to one |
| `Carousel.ReviewCarousel.MouseUp` | js/main.js:1097-1121 | no effect unless dragging; otherwise dragging ends, the index becomes the snapped index for the last recorded move, the track settles on it, and a resume is scheduled |
| `Carousel.ReviewCarousel.TouchStart` | js/main.js:1129-1134 | starts dragging from the touch position with the current card's offset and stops autoplay |
| `Carousel.ReviewCarousel.TouchMove` | js/main.js:1136-1142 | no effect unless dragging; otherwise the track follows the finger one to one |
| `Carousel.ReviewCarousel.TouchEnd` | js/main.js:1144-1167 | no effect unless dragging; otherwise dragging ends, the index becomes the snapped index for the touch's travel, the track settles on it (`initialTranslate` is left alone), and a resume is scheduled |
| `Carousel.ReviewCarousel.Resize` | js/main.js:1184-1192 | the track and `initialTranslate` move to the current card for the new width; the index does not change |
| `OpenNowBadge.NextOpenDay` | js/main.js:1250 | every branch names Wednesday |
| `OpenNowBadge.Status` | js/main.js:1228-1253 | "Open Now" exactly on Sunday or Wednesday to Saturday from 11:00; "Opens at 11:00 AM" exactly on those days before 11:00; "Opens Wednesday" exactly on Monday and Tuesday; the indicator is closed exactly when the text is not "Open Now" |

## Left out

- Fetching `assets/manifest.json` and the built-in fallback list (js/main.js:73-97) are input and output. The pool is a parameter of `Load`.
- A missing gallery container or carousel element makes the source return early. The model starts after those checks, so `ReviewCarousel.constructor` requires at least one card, matching the guard at js/main.js:1002.
- The DOM work is not modelled: element creation in `createGalleryItem`, `updateImageInItem` and `showGalleryFallback`, URL building with `encodeURIComponent`, CSS classes, transition strings and the `dragging` class. A tile is the image name it shows, and the placeholder is a flag.
- The fade in `replaceImageWithFade` (js/main.js:269-291) is not modelled. The tile's new image is applied at once. A rebuild during the fade replaces every tile anyway, so the write into the detached node has no effect in either case.
- `if (!itemToReplace) return;` (js/main.js:252) is not modelled. It cannot fire here, because the slot is drawn below the number of tiles.
- Timer delays are not modelled: the 6000-8000 ms switching period, 4500 ms autoplay, the 600 ms wrap delay, the 100, 2000 and 3000 ms resume delays, and the 250 ms debounce. Only which callbacks are pending is kept.
- The uniformity of the shuffle and of the other draws is a statistical property. It cannot be stated here. The model proves the structural guarantees for every draw.
- The reduced-motion preference is a boolean parameter. For the carousel it disables the whole subsystem before any state exists, so the model does not cover that case.
- `getBoundingClientRect` and pointer coordinates are floating point. Card widths and coordinates are integers here, and the snap threshold `|moved| > cardWidth / 3` is written `3 * |moved| > cardWidth`.
- `ReviewCarousel.Valid`: the upper bound on the index is stated only when there are at least three cards, so that at least one card is real. With one or two cards, `totalCards` is not positive and the source has no meaningful range.
- The rest of the file is left out as presentation glue: smooth scroll, the navbar, scroll and about animations, the hero video, the menu and package rendering, the reserve pill and the WhatsApp inactivity pulse.
