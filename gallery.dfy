/** The gallery rotation engine of js/main.js: the module state `allImages`,
    `visibleImages` and `galleryItems`, the initial selection of
    `loadGalleryAssets`, `switchRandomImage` and the debounced resize rebuild.
    The viewport width and every random draw are parameters; a tile is the
    image name it shows (its `data-image-name`). */
module Gallery {
  import opened Shuffle

  type Image = string

  /** One cell of the JavaScript array `visibleImages`: an image name, or the
      hole that an assignment past the end of the array leaves behind. */
  datatype Slot = Hole | Shows(image: Image)

  /** Visible slots and tiles, the part of the state a rotation changes. */
  datatype View = View(visible: seq<Slot>, tiles: seq<Image>)

  function Min(a: int, b: int): int {
    if a <= b then a else b
  }

  /** `getVisibleImageCount` for a viewport of the given width. */
  function VisibleImageCount(width: int): (n: nat)
    ensures n == 1 || n == 2 || n == 4
    ensures n == 1 <==> width <= 768
    ensures n == 4 <==> 1024 < width
  {
    if width <= 768 then 1 else if width <= 1024 then 2 else 4
  }

  /** A wider viewport never shows fewer tiles. */
  lemma VisibleImageCountMonotone(narrow: int, wide: int)
    requires narrow <= wide
    ensures VisibleImageCount(narrow) <= VisibleImageCount(wide)
  {
  }

  lemma VisibleImageCountBreakpoints()
    ensures VisibleImageCount(768) == 1 && VisibleImageCount(769) == 2
    ensures VisibleImageCount(1024) == 2 && VisibleImageCount(1025) == 4
  {
  }

  /** `shuffleArray([...allImages]).slice(0, count)`: the names shown after a
      load or a rebuild. The slice is clamped to the pool's length. */
  function Selection(pool: seq<Image>, draws: seq<nat>, count: nat): (r: seq<Image>)
    requires ValidDraws(draws, |pool|)
    ensures |r| == Min(count, |pool|)
    ensures multiset(r) <= multiset(pool)
    ensures forall x :: x in r ==> x in pool
    ensures Distinct(pool) ==> Distinct(r)
  {
    var shuffled := Shuffled(pool, draws);
    var k := Min(count, |pool|);
    ShuffledPermutes(pool, draws);
    ShuffledKeepsDistinct(pool, draws);
    assert shuffled == shuffled[..k] + shuffled[k..];
    assert multiset(shuffled) == multiset(shuffled[..k]) + multiset(shuffled[k..]);
    shuffled[..k]
  }

  function AsSlots(names: seq<Image>): (r: seq<Slot>)
    ensures |r| == |names| && forall i :: 0 <= i < |names| ==> r[i] == Shows(names[i])
  {
    seq(|names|, i requires 0 <= i < |names| => Shows(names[i]))
  }

  /** No image name is shown in two slots (holes may repeat). */
  predicate DistinctShown(v: seq<Slot>) {
    forall i, j :: 0 <= i < j < |v| && v[i].Shows? ==> v[i] != v[j]
  }

  /** Every shown slot holds a pool member. */
  predicate ShownFrom(pool: seq<Image>, v: seq<Slot>) {
    forall i :: 0 <= i < |v| && v[i].Shows? ==> v[i].image in pool
  }

  lemma AsSlotsFrom(pool: seq<Image>, names: seq<Image>)
    requires forall x :: x in names ==> x in pool
    ensures ShownFrom(pool, AsSlots(names))
  {
    var v := AsSlots(names);
    forall i | 0 <= i < |v| && v[i].Shows? ensures v[i].image in pool {
      assert v[i].image == names[i];
    }
  }

  lemma AsSlotsDistinct(names: seq<Image>)
    ensures DistinctShown(AsSlots(names)) <==> Distinct(names)
  {
    var v := AsSlots(names);
    if Distinct(names) {
      forall i, j | 0 <= i < j < |v| && v[i].Shows? ensures v[i] != v[j] {
        assert names[i] != names[j];
      }
    }
    if DistinctShown(v) {
      forall i, j | 0 <= i < j < |names| ensures names[i] != names[j] {
        assert v[i] != v[j];
      }
    }
  }

  /** `allImages.filter(img => !visibleImages.includes(img))`, in pool order. */
  function Available(pool: seq<Image>, visible: seq<Slot>): (r: seq<Image>)
    ensures |r| <= |pool|
    ensures forall x :: x in r <==> x in pool && Shows(x) !in visible
    ensures Distinct(pool) ==> Distinct(r)
  {
    if pool == [] then []
    else if Shows(pool[0]) !in visible then [pool[0]] + Available(pool[1..], visible)
    else Available(pool[1..], visible)
  }

  /** Nothing is available when every pool image is shown. */
  lemma {:induction false} AvailableEmpty(pool: seq<Image>, visible: seq<Slot>)
    requires forall x :: x in pool ==> Shows(x) in visible
    ensures Available(pool, visible) == []
  {
    if pool != [] {
      assert pool[0] in pool;
      AvailableEmpty(pool[1..], visible);
    }
  }

  /** The JavaScript assignment `visible[k] = x`: an index at or past the end
      lengthens the array and leaves holes between the old end and `k`. */
  function AssignSlot(v: seq<Slot>, k: nat, x: Image): (r: seq<Slot>)
    ensures |r| == if k < |v| then |v| else k + 1
    ensures r[k] == Shows(x)
    ensures forall i :: 0 <= i < |v| && i != k ==> r[i] == v[i]
    ensures forall i :: |v| <= i < k ==> r[i] == Hole
  {
    if k < |v| then v[k := Shows(x)] else v + seq(k - |v|, _ => Hole) + [Shows(x)]
  }

  /** The reshuffle's `galleryItems.forEach`: a tile whose index is below
      `|names|` now shows `names` at that index; the others keep their image. */
  function RefreshTiles(tiles: seq<Image>, names: seq<Image>): (r: seq<Image>)
    ensures |r| == |tiles|
    ensures forall i :: 0 <= i < |tiles| ==> r[i] == if i < |names| then names[i] else tiles[i]
  {
    seq(|tiles|, i requires 0 <= i < |tiles| => if i < |names| then names[i] else tiles[i])
  }

  /** Redrawing tiles with pool names keeps every tile a pool name. */
  lemma RefreshTilesFrom(pool: seq<Image>, tiles: seq<Image>, names: seq<Image>)
    requires forall t :: t in tiles ==> t in pool
    requires forall x :: x in names ==> x in pool
    ensures forall t :: t in RefreshTiles(tiles, names) ==> t in pool
  {
    var r := RefreshTiles(tiles, names);
    forall t | t in r ensures t in pool {
      var k :| 0 <= k < |r| && r[k] == t;
      assert k < |names| ==> t == names[k];
      assert |names| <= k ==> t == tiles[k];
    }
  }

  /** The draws one call of `switchRandomImage` can make: the Fisher-Yates draws
      of the reshuffle, the slot `Math.floor(Math.random() * Math.min(count,
      galleryItems.length))` and the pick among the available images. */
  predicate FitsDraws(pool: seq<Image>, view: View, count: nat, draws: seq<nat>, slot: nat, pick: nat) {
    ValidDraws(draws, |pool|)
    && (|view.tiles| > 0 ==> slot < Min(count, |view.tiles|))
    && (pick < |Available(pool, view.visible)| || Available(pool, view.visible) == [])
  }

  /** The state after `switchRandomImage` when the viewport asks for `count`
      tiles. No tile is created or removed, and a tile only ever receives a
      pool image. */
  function Rotate(pool: seq<Image>, view: View, count: nat, draws: seq<nat>, slot: nat, pick: nat): (r: View)
    requires FitsDraws(pool, view, count, draws, slot, pick)
    ensures |r.tiles| == |view.tiles|
    ensures forall t :: t in r.tiles ==> t in view.tiles || t in pool
  {
    if |pool| <= count then view
    else
      var available := Available(pool, view.visible);
      if available == [] then
        var names := Selection(pool, draws, count);
        View(AsSlots(names), RefreshTiles(view.tiles, names))
      else if view.tiles == [] then view
      else View(AssignSlot(view.visible, slot, available[pick]), view.tiles[slot := available[pick]])
  }

  /** The rotation is idle when the pool has no image to bring in, and when
      there is no tile to put an available image in. With no tile and no
      available image the reshuffle still runs, since it comes first. */
  lemma RotateIdle(pool: seq<Image>, view: View, count: nat, draws: seq<nat>, slot: nat, pick: nat)
    requires FitsDraws(pool, view, count, draws, slot, pick)
    requires |pool| <= count || (view.tiles == [] && Available(pool, view.visible) != [])
    ensures Rotate(pool, view, count, draws, slot, pick) == view
  {
  }

  /** When every pool image is already visible, the rotation shows a fresh
      selection of `count` images and redraws only the tiles below `count`. */
  lemma RotateReshuffles(pool: seq<Image>, view: View, count: nat, draws: seq<nat>, slot: nat, pick: nat)
    requires FitsDraws(pool, view, count, draws, slot, pick)
    requires count < |pool| && forall x :: x in pool ==> Shows(x) in view.visible
    ensures var r := Rotate(pool, view, count, draws, slot, pick);
      && |r.visible| == count
      && r.visible == AsSlots(Selection(pool, draws, count))
      && |r.tiles| == |view.tiles|
      && (forall i :: 0 <= i < |r.tiles| && i < count ==> r.visible[i] == Shows(r.tiles[i]))
      && (forall i :: count <= i < |r.tiles| ==> r.tiles[i] == view.tiles[i])
  {
    AvailableEmpty(pool, view.visible);
  }

  /** An incremental rotation replaces exactly one slot, below
      `min(count, |tiles|)`, with a pool image that was not visible before; no
      other slot or tile changes. */
  lemma RotateReplacesOneSlot(pool: seq<Image>, view: View, count: nat, draws: seq<nat>, slot: nat, pick: nat)
    requires FitsDraws(pool, view, count, draws, slot, pick)
    requires count < |pool| && view.tiles != []
    requires exists x :: x in pool && Shows(x) !in view.visible
    ensures var r := Rotate(pool, view, count, draws, slot, pick);
      && slot < count && slot < |view.tiles|
      && r.visible[slot].Shows?
      && r.visible[slot].image in pool
      && r.visible[slot] !in view.visible
      && (forall i :: 0 <= i < |view.visible| && i != slot ==> r.visible[i] == view.visible[i])
      && (forall i :: |view.visible| <= i < |r.visible| && i != slot ==> r.visible[i] == Hole)
      && r.tiles == view.tiles[slot := r.visible[slot].image]
  {
    var x :| x in pool && Shows(x) !in view.visible;
    assert x in Available(pool, view.visible);
  }

  /** Every rotation keeps the visible images pool members and pairwise
      distinct, provided the pool itself holds no name twice. */
  lemma RotateKeepsDistinct(pool: seq<Image>, view: View, count: nat, draws: seq<nat>, slot: nat, pick: nat)
    requires FitsDraws(pool, view, count, draws, slot, pick)
    requires Distinct(pool) && DistinctShown(view.visible) && ShownFrom(pool, view.visible)
    ensures var r := Rotate(pool, view, count, draws, slot, pick);
      DistinctShown(r.visible) && ShownFrom(pool, r.visible)
  {
    var r := Rotate(pool, view, count, draws, slot, pick);
    var available := Available(pool, view.visible);
    if count < |pool| {
      if available == [] {
        var names := Selection(pool, draws, count);
        AsSlotsDistinct(names);
      } else if view.tiles != [] {
        var x := available[pick];
        assert x in available;
        forall i, j | 0 <= i < j < |r.visible| && r.visible[i].Shows?
          ensures r.visible[i] != r.visible[j]
        {
          if i == slot {
            assert j >= |view.visible| || r.visible[j] == view.visible[j];
          } else if j == slot {
            assert r.visible[i] == view.visible[i];
          }
        }
      }
    }
  }

  /** Tile `i` shows the image of visible slot `i`, and there are as many tiles
      as slots. */
  predicate Aligned(view: View) {
    |view.tiles| == |view.visible| && forall i :: 0 <= i < |view.tiles| ==> view.visible[i] == Shows(view.tiles[i])
  }

  /** Starting from tiles that match the visible slots, a rotation keeps them
      matched except on the reshuffle path, which leaves them matched exactly
      when the tile count equals `count`. */
  lemma RotateAlignment(pool: seq<Image>, view: View, count: nat, draws: seq<nat>, slot: nat, pick: nat)
    requires FitsDraws(pool, view, count, draws, slot, pick)
    requires Aligned(view)
    ensures var r := Rotate(pool, view, count, draws, slot, pick);
      Aligned(r) <==> (|pool| <= count || Available(pool, view.visible) != [] || |view.tiles| == count)
  {
    var r := Rotate(pool, view, count, draws, slot, pick);
    if count < |pool| && Available(pool, view.visible) == [] && |view.tiles| != count {
      assert |r.visible| == count;
    }
  }

  /** With distinct tiles matching the visible slots, every rotation that keeps
      them matched shows no image on two tiles. */
  lemma AlignedDistinctTiles(view: View)
    requires Aligned(view) && DistinctShown(view.visible)
    ensures Distinct(view.tiles)
  {
    forall i, j | 0 <= i < j < |view.tiles| ensures view.tiles[i] != view.tiles[j] {
      assert view.visible[i] != view.visible[j];
    }
  }

  /** The end-to-end case: with one image more than tiles, after a load
      the only available image is the one the shuffle left out, and the first
      rotation puts exactly that image in the drawn slot. */
  lemma {:induction false} RotateAfterLoad(pool: seq<Image>, count: nat, loadDraws: seq<nat>, draws: seq<nat>, slot: nat, pick: nat)
    requires Distinct(pool) && |pool| == count + 1 && 0 < count
    requires ValidDraws(loadDraws, |pool|)
    requires var names := Selection(pool, loadDraws, count);
      FitsDraws(pool, View(AsSlots(names), names), count, draws, slot, pick)
    ensures var names := Selection(pool, loadDraws, count);
      var left := Shuffled(pool, loadDraws)[count];
      && (forall y :: y in Available(pool, AsSlots(names)) <==> y == left)
      && Rotate(pool, View(AsSlots(names), names), count, draws, slot, pick)
         == View(AsSlots(names[slot := left]), names[slot := left])
  {
    var shuffled := Shuffled(pool, loadDraws);
    ShuffledPermutes(pool, loadDraws);
    ShuffledKeepsDistinct(pool, loadDraws);
    var names := Selection(pool, loadDraws, count);
    var v := AsSlots(names);
    var left := shuffled[count];
    assert names == shuffled[..count];
    var available := Available(pool, v);
    assert left in pool;
    assert Shows(left) !in v by {
      forall i | 0 <= i < |v| ensures v[i] != Shows(left) {
        assert names[i] == shuffled[i];
      }
    }
    assert left in available;
    forall y | y in available ensures y == left {
      forall i | 0 <= i < count ensures shuffled[i] != y {
        assert v[i] in v;
      }
      assert y in shuffled;
      var k :| 0 <= k < |shuffled| && shuffled[k] == y;
    }
    assert available[pick] in available;
    assert AsSlots(names)[slot := Shows(left)] == AsSlots(names[slot := left]);
  }

  /** The gallery's module state. */
  class GalleryEngine {
    /** The pool every selection and rotation draws from. */
    var allImages: seq<Image>
    var visibleImages: seq<Slot>
    /** `galleryItems`: the image each rendered tile shows. */
    var tiles: seq<Image>
    /** An image-switching interval is installed. */
    var switching: bool
    /** The "Gallery content loading..." placeholder is shown. */
    var showsFallback: bool

    function Current(): View
      reads this
    {
      View(visibleImages, tiles)
    }

    /** Every visible image and every tile comes from the pool. */
    predicate Valid()
      reads this
    {
      ShownFrom(allImages, visibleImages) && forall t :: t in tiles ==> t in allImages
    }

    /** `loadGalleryAssets` once the image list is known: an empty list shows
        the placeholder and starts nothing; otherwise a selection for the
        current width is rendered, one tile per image, and switching starts
        unless reduced motion is preferred. */
    constructor Load(images: seq<Image>, width: int, draws: seq<nat>, reducedMotion: bool)
      requires ValidDraws(draws, |images|)
      ensures Valid()
      ensures showsFallback <==> images == []
      ensures images == [] ==> allImages == [] && visibleImages == [] && tiles == [] && !switching
      ensures images != [] ==>
        && allImages == images
        && tiles == Selection(images, draws, VisibleImageCount(width))
        && visibleImages == AsSlots(tiles)
        && switching == !reducedMotion
    {
      allImages, visibleImages, tiles := [], [], [];
      switching, showsFallback := false, false;
      new;
      if |images| == 0 {
        showsFallback := true;
        return;
      }
      allImages := images;
      var count := VisibleImageCount(width);
      var shuffled := ShuffleArray(allImages, draws);
      var names := shuffled[..Min(count, |shuffled|)];
      assert names == Selection(images, draws, count);
      AsSlotsFrom(allImages, names);
      visibleImages := AsSlots(names);
      RenderTiles(names);
      StartImageSwitching(reducedMotion);
    }

    /** The `forEach` that creates one tile per name and pushes it onto
        `galleryItems`, starting from no tiles. */
    method RenderTiles(names: seq<Image>)
      modifies this`tiles
      ensures tiles == names
    {
      tiles := [];
      for i := 0 to |names|
        invariant tiles == names[..i]
      {
        tiles := tiles + [names[i]];
      }
    }

    /** The reshuffle's `galleryItems.forEach`: each tile below `|names|` is
        redrawn with the name at its index. */
    method RedrawTiles(names: seq<Image>)
      modifies this`tiles
      ensures tiles == RefreshTiles(old(tiles), names)
    {
      for i := 0 to |tiles|
        invariant |tiles| == |old(tiles)|
        invariant forall k :: 0 <= k < i ==> tiles[k] == RefreshTiles(old(tiles), names)[k]
        invariant forall k :: i <= k < |tiles| ==> tiles[k] == old(tiles)[k]
      {
        if i < |names| {
          tiles := tiles[i := names[i]];
        }
      }
    }

    /** `startImageSwitching`: any existing interval is cleared, and a new one is
        installed unless reduced motion is preferred. */
    method StartImageSwitching(reducedMotion: bool)
      modifies this`switching
      ensures switching == !reducedMotion
    {
      switching := false;
      if !reducedMotion {
        switching := true;
      }
    }

    /** `switchRandomImage`, fired by the switching interval. */
    method SwitchRandomImage(width: int, draws: seq<nat>, slot: nat, pick: nat)
      requires Valid() && switching
      requires FitsDraws(allImages, Current(), VisibleImageCount(width), draws, slot, pick)
      modifies this`visibleImages, this`tiles
      ensures Valid()
      ensures Current() == Rotate(allImages, old(Current()), VisibleImageCount(width), draws, slot, pick)
    {
      var count := VisibleImageCount(width);
      if |allImages| <= count {
        return;
      }
      var available := Available(allImages, visibleImages);
      if |available| == 0 {
        var shuffled := ShuffleArray(allImages, draws);
        var names := shuffled[..count];
        assert names == Selection(allImages, draws, count);
        AsSlotsFrom(allImages, names);
        visibleImages := AsSlots(names);
        RedrawTiles(names);
        RefreshTilesFrom(allImages, old(tiles), names);
        return;
      }
      if |tiles| == 0 {
        return;
      }
      var newImage := available[pick];
      assert newImage in available;
      visibleImages := AssignSlot(visibleImages, slot, newImage);
      tiles := tiles[slot := newImage];
    }

    /** The debounced resize handler: when the count for the new width differs
        from `visibleImages.length` and the pool is not empty, every tile is
        dropped and a fresh selection is rendered. */
    method Resize(width: int, draws: seq<nat>)
      requires Valid() && ValidDraws(draws, |allImages|)
      modifies this`visibleImages, this`tiles
      ensures Valid()
      ensures var count := VisibleImageCount(width);
        if count != |old(visibleImages)| && allImages != [] then
          tiles == Selection(allImages, draws, count) && visibleImages == AsSlots(tiles)
        else
          visibleImages == old(visibleImages) && tiles == old(tiles)
    {
      var newCount := VisibleImageCount(width);
      if newCount != |visibleImages| && |allImages| > 0 {
        tiles := [];
        var shuffled := ShuffleArray(allImages, draws);
        var names := shuffled[..Min(newCount, |shuffled|)];
        assert names == Selection(allImages, draws, newCount);
        AsSlotsFrom(allImages, names);
        visibleImages := AsSlots(names);
        RenderTiles(names);
      }
    }
  }
}
