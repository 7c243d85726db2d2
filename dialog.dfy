// The decisions the export dialog takes between pressing OK and starting the
// tiling thread: the zoom-order check, the TMS numbering choice, the
// enumeration of the tile pyramid with its `None` error, and the
// OpenStreetMap restriction with the user's confirmation.

module Dialog {
  import opened Wrappers
  import opened Strings
  import opened Tiles
  import opened Layers
  import opened Enumerator
  import opened Restrictions
  import TilingThread

  /** The `tms` component of the start tile: -1 numbers rows TMS-style, 1 XYZ-style. */
  function UseTms(tmsConvention: bool): int {
    if tmsConvention then -1 else 1
  }

  /** The TMS check box, forced on for an output file whose suffix is `mbtiles` in any case. */
  function TmsConvention(checked: bool, suffix: string): (tms: bool)
    ensures tms <==> checked || Lower(suffix) == "mbtiles"
  {
    if Lower(suffix) == "mbtiles" then true else checked
  }

  /** What the dialog reads from its widgets and from the map canvas. */
  datatype Form = Form(
    layers: seq<Layer>,
    extentHits: Tile -> bool,
    layerHits: (Layer, Tile) -> bool,
    minZoom: int,
    maxZoom: int,
    renderOutside: bool,
    tmsChecked: bool,
    suffix: string)

  function TmsOf(f: Form): bool {
    TmsConvention(f.tmsChecked, f.suffix)
  }

  function StartTile(f: Form): Tile {
    Tile(0, 0, 0, UseTms(TmsOf(f)))
  }

  function RequestOf(f: Form): Request {
    Request(f.layers, f.extentHits, f.layerHits, f.minZoom, f.maxZoom, f.renderOutside)
  }

  /** How one press of OK ends. */
  datatype Outcome =
    | WrongZoom                          // warning, nothing enumerated
    | NoIntersection                     // warning, the enumeration gave `None`
    | MissingRestrictionMethod           // the restriction object has no such method
    | RestrictionAbort(message: seq<Paragraph>)
    | Declined                           // the user answered No to the restriction question
    | Start(tiles: seq<Tile>, layers: seq<Layer>, tmsConvention: bool)

  /**
   * The handler as written: once the tiles are counted it calls
   * `validate_restriction`, a method the restriction class does not define,
   * so every press that gets that far ends in an exception.
   */
  function AcceptAsWritten(f: Form): (o: Outcome)
    ensures o == WrongZoom <==> f.minZoom > f.maxZoom
    ensures o == NoIntersection <==> f.minZoom <= f.maxZoom && Enumerate(RequestOf(f), StartTile(f)).None?
  {
    if f.minZoom > f.maxZoom then WrongZoom
    else match Enumerate(RequestOf(f), StartTile(f))
      case None => NoIntersection
      case Some(_) => MissingRestrictionMethod
  }

  /** The handler as written never reaches the tiling thread. */
  lemma AcceptAsWrittenNeverStarts(f: Form)
    ensures !AcceptAsWritten(f).Start?
    ensures f.minZoom <= f.maxZoom && Enumerate(RequestOf(f), StartTile(f)).Some?
            ==> AcceptAsWritten(f) == MissingRestrictionMethod
  {
  }

  /**
   * The handler with the call renamed to `check`, everything else as
   * written. `check` mutates the dialog's own list and returns it, so the
   * list read back as the skipped layers is the list of layers itself:
   * their lengths always agree and every violation aborts.
   */
  function AcceptWithCheck(f: Form): (o: Outcome)
    ensures !o.Declined?
    ensures o.Start? ==> Enumerate(RequestOf(f), StartTile(f)) == Some(o.tiles)
  {
    if f.minZoom > f.maxZoom then WrongZoom
    else match Enumerate(RequestOf(f), StartTile(f))
      case None => NoIntersection
      case Some(tiles) => RestrictWithCheck(tiles, f.layers, TmsOf(f))
  }

  /** The restriction step of `AcceptWithCheck`, once the tiles are counted. */
  function RestrictWithCheck(tiles: seq<Tile>, layers: seq<Layer>, tms: bool): (o: Outcome)
    ensures o.RestrictionAbort? || o.Start?
    ensures o.Start? ==> o.tiles == tiles && o.tmsConvention == tms
  {
    var c := CheckAsWritten(IsOpenStreetMapLayer, layers, |tiles|);
    var skipped, remaining := c.layers, c.layers;
    if c.violated && |skipped| == |remaining| then RestrictionAbort(c.message)
    else Start(tiles, remaining, tms)
  }

  /**
   * The corrected handler: a violation aborts only when no layer remains;
   * otherwise the user is asked and, on Yes, the thread gets the remaining
   * layers.
   */
  function Accept(f: Form, confirmed: bool): (o: Outcome)
    ensures o == WrongZoom <==> f.minZoom > f.maxZoom
    ensures o == NoIntersection <==> f.minZoom <= f.maxZoom && Enumerate(RequestOf(f), StartTile(f)).None?
    ensures !o.MissingRestrictionMethod?
    ensures o.Start? ==> Enumerate(RequestOf(f), StartTile(f)) == Some(o.tiles) && o.tmsConvention == TmsOf(f)
  {
    if f.minZoom > f.maxZoom then WrongZoom
    else match Enumerate(RequestOf(f), StartTile(f))
      case None => NoIntersection
      case Some(tiles) => Restrict(tiles, f.layers, TmsOf(f), confirmed)
  }

  /** The restriction step of `Accept`, once the tiles are counted. */
  function Restrict(tiles: seq<Tile>, layers: seq<Layer>, tms: bool, confirmed: bool): (o: Outcome)
    ensures o.RestrictionAbort? || o.Declined? || o.Start?
    ensures o.Start? ==> o.tiles == tiles && o.tmsConvention == tms
  {
    var c := CheckCorrected(IsOpenStreetMapLayer, layers, |tiles|);
    if !c.violated then Start(tiles, layers, tms)
    else if c.layers == [] then RestrictionAbort(c.message)
    else if !confirmed then Declined
    else Start(tiles, c.layers, tms)
  }

  /** An empty enumeration is not an error: the thread starts with no tiles and every layer. */
  lemma EmptyEnumerationStarts(f: Form, confirmed: bool)
    requires f.minZoom <= f.maxZoom && Enumerate(RequestOf(f), StartTile(f)) == Some([])
    ensures Accept(f, confirmed) == Start([], f.layers, TmsOf(f))
    ensures AcceptWithCheck(f) == Start([], f.layers, TmsOf(f))
  {
  }

  /** Every tile handed to the thread lies on the grid of its zoom, in the zoom range, numbered as chosen. */
  lemma StartedTiles(f: Form, confirmed: bool, u: Tile)
    requires Accept(f, confirmed).Start? && u in Accept(f, confirmed).tiles
    ensures InRange(u) && u.tms == UseTms(Accept(f, confirmed).tmsConvention)
    ensures f.minZoom <= u.z <= f.maxZoom
    ensures !f.renderOutside ==> SomeLayerHits(RequestOf(f), u)
  {
    var t := StartTile(f);
    assert InRange(t) by {
      assert Pow2(0) == 1;
    }
    ListedTilesInRange(RequestOf(f), t, u);
    ListedTilesIncluded(RequestOf(f), t, u);
  }

  /** The restriction either aborts the run or removes every OpenStreetMap layer, keeping all others. */
  lemma StartedLayers(f: Form, confirmed: bool)
    requires Accept(f, confirmed).Start?
    ensures var o := Accept(f, confirmed);
            (|o.tiles| <= MaximumOpenStreetMapTilesFetch ==> o.layers == f.layers)
            && (|o.tiles| > MaximumOpenStreetMapTilesFetch ==>
                  (forall k :: 0 <= k < |o.layers| ==> !IsOpenStreetMapLayer(o.layers[k]))
                  && forall x :: !IsOpenStreetMapLayer(x) ==> multiset(o.layers)[x] == multiset(f.layers)[x])
  {
    var o := Accept(f, confirmed);
    var c := CheckCorrected(IsOpenStreetMapLayer, f.layers, |o.tiles|);
    if !c.violated && |o.tiles| > MaximumOpenStreetMapTilesFetch {
      FilterOsmEmpty(IsOpenStreetMapLayer, f.layers);
      assert c.layers == f.layers;
    }
  }

  /** A list holding only OpenStreetMap layers over the threshold leaves nothing; one with another layer leaves it. */
  lemma RemainingEmptyIff(ls: seq<Layer>, tilesCount: int)
    requires tilesCount > MaximumOpenStreetMapTilesFetch
    ensures CheckCorrected(IsOpenStreetMapLayer, ls, tilesCount).layers == []
            <==> forall k :: 0 <= k < |ls| ==> IsOpenStreetMapLayer(ls[k])
  {
    var r := CheckCorrected(IsOpenStreetMapLayer, ls, tilesCount).layers;
    if r != [] {
      var x := r[0];
      assert multiset(r)[x] > 0;
      assert x in ls;
      var k :| 0 <= k < |ls| && ls[k] == x;
      assert !IsOpenStreetMapLayer(ls[k]);
    }
  }

  /**
   * The corrected restriction step aborts exactly when the threshold is
   * exceeded and every layer, of which there is one, is an OpenStreetMap
   * layer; it asks the user exactly when the threshold is exceeded and the
   * layers are mixed.
   */
  lemma RestrictAbortIff(tiles: seq<Tile>, layers: seq<Layer>, tms: bool, confirmed: bool)
    ensures Restrict(tiles, layers, tms, confirmed).RestrictionAbort?
            <==> |tiles| > MaximumOpenStreetMapTilesFetch && layers != []
                 && forall k :: 0 <= k < |layers| ==> IsOpenStreetMapLayer(layers[k])
    ensures Restrict(tiles, layers, tms, confirmed).Declined?
            <==> !confirmed && |tiles| > MaximumOpenStreetMapTilesFetch
                 && (exists k :: 0 <= k < |layers| && IsOpenStreetMapLayer(layers[k]))
                 && (exists k :: 0 <= k < |layers| && !IsOpenStreetMapLayer(layers[k]))
  {
    var c := CheckCorrected(IsOpenStreetMapLayer, layers, |tiles|);
    assert c.violated <==> |tiles| > MaximumOpenStreetMapTilesFetch
                           && exists k :: 0 <= k < |layers| && IsOpenStreetMapLayer(layers[k]) by {
      CheckCorrectedViolatedIff(IsOpenStreetMapLayer, layers, |tiles|);
      CheckViolatedIff(IsOpenStreetMapLayer, layers, |tiles|);
    }
    if |tiles| > MaximumOpenStreetMapTilesFetch {
      RemainingEmptyIff(layers, |tiles|);
    }
  }

  /** The corrected handler's abort and question, in terms of the form. */
  lemma AbortIff(f: Form, confirmed: bool, tiles: seq<Tile>)
    requires f.minZoom <= f.maxZoom && Enumerate(RequestOf(f), StartTile(f)) == Some(tiles)
    ensures Accept(f, confirmed).RestrictionAbort?
            <==> |tiles| > MaximumOpenStreetMapTilesFetch && f.layers != []
                 && forall k :: 0 <= k < |f.layers| ==> IsOpenStreetMapLayer(f.layers[k])
    ensures Accept(f, confirmed).Declined?
            <==> !confirmed && |tiles| > MaximumOpenStreetMapTilesFetch
                 && (exists k :: 0 <= k < |f.layers| && IsOpenStreetMapLayer(f.layers[k]))
                 && (exists k :: 0 <= k < |f.layers| && !IsOpenStreetMapLayer(f.layers[k]))
  {
    assert Accept(f, confirmed) == Restrict(tiles, f.layers, TmsOf(f), confirmed);
    RestrictAbortIff(tiles, f.layers, TmsOf(f), confirmed);
  }

  /** With `check` in place of the missing method, every violation aborts. */
  lemma RestrictWithCheckAbortsIff(tiles: seq<Tile>, layers: seq<Layer>, tms: bool)
    ensures RestrictWithCheck(tiles, layers, tms).RestrictionAbort?
            <==> |tiles| > MaximumOpenStreetMapTilesFetch
                 && exists k :: 0 <= k < |layers| && IsOpenStreetMapLayer(layers[k])
    ensures RestrictWithCheck(tiles, layers, tms).Start? ==> RestrictWithCheck(tiles, layers, tms).layers == layers
  {
    CheckViolatedIff(IsOpenStreetMapLayer, layers, |tiles|);
  }

  /**
   * Where the corrected handler would ask and start with the remaining
   * layers, the handler with `check` aborts: over the threshold, with an
   * OpenStreetMap layer and another layer `x`, `x` is never rendered.
   */
  lemma WithCheckAbortsMixedLayers(f: Form, tiles: seq<Tile>, x: Layer)
    requires f.minZoom <= f.maxZoom && Enumerate(RequestOf(f), StartTile(f)) == Some(tiles)
    requires |tiles| > MaximumOpenStreetMapTilesFetch
    requires exists k :: 0 <= k < |f.layers| && IsOpenStreetMapLayer(f.layers[k])
    requires x in f.layers && !IsOpenStreetMapLayer(x)
    ensures AcceptWithCheck(f).RestrictionAbort?
    ensures Accept(f, true).Start? && x in Accept(f, true).layers
  {
    assert AcceptWithCheck(f) == RestrictWithCheck(tiles, f.layers, TmsOf(f));
    assert Accept(f, true) == Restrict(tiles, f.layers, TmsOf(f), true);
    RestrictWithCheckAbortsIff(tiles, f.layers, TmsOf(f));
    var c := CheckCorrected(IsOpenStreetMapLayer, f.layers, |tiles|);
    assert c.violated by {
      CheckCorrectedViolatedIff(IsOpenStreetMapLayer, f.layers, |tiles|);
      CheckViolatedIff(IsOpenStreetMapLayer, f.layers, |tiles|);
    }
    assert multiset(f.layers)[x] > 0;
    assert multiset(c.layers)[x] > 0;
  }

  /** Under the threshold the restriction changes nothing in either handler. */
  lemma UnderThresholdStartsWithAllLayers(f: Form, confirmed: bool, tiles: seq<Tile>)
    requires f.minZoom <= f.maxZoom && Enumerate(RequestOf(f), StartTile(f)) == Some(tiles)
    requires |tiles| <= MaximumOpenStreetMapTilesFetch
    ensures Accept(f, confirmed) == AcceptWithCheck(f) == Start(tiles, f.layers, TmsOf(f))
  {
  }

  /** A `.mbtiles` output, whatever the case of its suffix, starts from a TMS-numbered tile. */
  lemma MbTilesForcesTms(f: Form)
    requires Lower(f.suffix) == "mbtiles"
    ensures TmsOf(f) && StartTile(f).tms == -1
  {
  }

  /** The thread's own TMS forcing agrees with the dialog's, so applying both is the dialog's choice. */
  lemma TmsChoicesAgree(isDir: bool, checked: bool, suffix: string)
    ensures TilingThread.TmsConventionOf(isDir, suffix, TmsConvention(checked, suffix)) == TmsConvention(checked, suffix)
    ensures !isDir ==> TilingThread.TmsConventionOf(isDir, suffix, checked) == TmsConvention(checked, suffix)
  {
  }
}
