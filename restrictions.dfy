/**
 * The OpenStreetMap restriction: when a run would fetch more than 5000
 * tiles, every OpenStreetMap layer is to be dropped from the layer list
 * (the OpenStreetMap Foundation's tile usage policy forbids bulk
 * downloading), and an HTML message says which layers were skipped.
 *
 * `check` removes the layers from the very list it is iterating over, so
 * Python's list iterator, which walks by index, never looks at the element
 * that slides into the place of a removed one. `Check` below is that loop as
 * written; `CheckCorrected` is the filter the loop was meant to be.
 */
module Restrictions {
  import opened Strings
  import opened Layers

  const MaximumOpenStreetMapTilesFetch: int := 5000

  /** A WMS layer (provider type compared case-insensitively) served from an OpenStreetMap host. */
  predicate IsOpenStreetMapLayer(layer: Layer) {
    Lower(layer.providerType) == "wms"
    && (EndsWith(Lower(layer.host), "openstreetmap.org") || EndsWith(Lower(layer.host), "osm.org"))
  }

  /**
   * The test ignores case: a layer is an OpenStreetMap layer exactly when
   * the same layer with its provider type and host lower-cased is one.
   */
  lemma OpenStreetMapCaseInsensitive(layer: Layer)
    ensures IsOpenStreetMapLayer(layer)
            == IsOpenStreetMapLayer(layer.(providerType := Lower(layer.providerType), host := Lower(layer.host)))
  {
    LowerIdempotent(layer.providerType);
    LowerIdempotent(layer.host);
  }

  /** The paragraphs of the HTML message; their translated text is not modelled. */
  datatype Paragraph =
    | SkippedIntro                       // "The following OpenStreetMap layers were skipped ..."
    | SkippedList(names: seq<string>)    // the skipped layers' names, joined by "<br>"
    | NoLayersRemaining                  // "There are no layers remaining for tiling. ..."
    | ReduceZoomAdvice                   // "To avoid this restriction, try reducing the maximum zoom ..."

  /** The triple `check` returns: whether layers were skipped, the message, and the layer list. */
  datatype CheckResult = CheckResult(violated: bool, message: seq<Paragraph>, layers: seq<Layer>)

  function Names(layers: seq<Layer>): (r: seq<string>)
    ensures |r| == |layers| && forall i :: 0 <= i < |layers| ==> r[i] == layers[i].name
  {
    if layers == [] then [] else [layers[0].name] + Names(layers[1..])
  }

  /** The message built once some layers were collected; `remaining` is the list after the removals. */
  function SkipMessage(collected: seq<Layer>, remaining: seq<Layer>): seq<Paragraph> {
    [SkippedIntro, SkippedList(Names(collected))]
    + (if remaining == [] then [NoLayersRemaining] else [])
    + [ReduceZoomAdvice]
  }

  /** Python's `list.remove(x)`: drops the first element equal to `x`. */
  function RemoveFirst(s: seq<Layer>, x: Layer): (r: seq<Layer>)
    ensures x in s ==> |r| == |s| - 1
    ensures x !in s ==> r == s
  {
    if s == [] then []
    else if s[0] == x then s[1..]
    else [s[0]] + RemoveFirst(s[1..], x)
  }

  lemma {:induction false} RemoveFirstMultiset(s: seq<Layer>, x: Layer)
    ensures multiset(RemoveFirst(s, x)) == multiset(s) - multiset{x}
  {
    if s != [] {
      assert s == [s[0]] + s[1..];
      if s[0] != x {
        RemoveFirstMultiset(s[1..], x);
      }
    }
  }

  /**
   * The loop of `check` from iterator position `i`, with `collected` the
   * layers appended so far: the layer at `i` is read and the position
   * advanced; an OpenStreetMap layer is then appended and removed from the
   * list. The first component is the list at the end, the second the
   * collected layers.
   */
  function Sweep(isOsm: Layer -> bool, s: seq<Layer>, i: nat, collected: seq<Layer>): (seq<Layer>, seq<Layer>)
    decreases |s| - i
  {
    if i >= |s| then (s, collected)
    else if isOsm(s[i]) then Sweep(isOsm, RemoveFirst(s, s[i]), i + 1, collected + [s[i]])
    else Sweep(isOsm, s, i + 1, collected)
  }

  /** `check(layers, tiles_count)` as written. */
  function CheckAsWritten(isOsm: Layer -> bool, layers: seq<Layer>, tilesCount: int): (r: CheckResult)
    ensures tilesCount <= MaximumOpenStreetMapTilesFetch ==> r == CheckResult(false, [], layers)
    ensures r.violated <==> r.message != []
    ensures NoLayersRemaining in r.message <==> r.violated && r.layers == []
  {
    if tilesCount > MaximumOpenStreetMapTilesFetch then
      var (remaining, collected) := Sweep(isOsm, layers, 0, []);
      if collected != [] then CheckResult(true, SkipMessage(collected, remaining), remaining)
      else CheckResult(false, [], remaining)
    else
      CheckResult(false, [], layers)
  }

  /** The caller's layer list, which `check` changes in place and hands back. */
  class LayerList {
    var items: seq<Layer>

    constructor (items: seq<Layer>)
      ensures this.items == items
    {
      this.items := items;
    }
  }

  /**
   * `OpenStreetMapRestriction.check`: the loop walks the list by position as
   * Python's iterator does, and removes each OpenStreetMap layer from the
   * same list. The third result is the argument itself.
   */
  method Check(layers: LayerList, tilesCount: int) returns (violated: bool, message: seq<Paragraph>, result: LayerList)
    modifies layers
    ensures result == layers
    ensures CheckResult(violated, message, layers.items) == CheckAsWritten(IsOpenStreetMapLayer, old(layers.items), tilesCount)
  {
    message := [];
    if tilesCount > MaximumOpenStreetMapTilesFetch {
      var collected: seq<Layer> := [];
      var i := 0;
      while i < |layers.items|
        invariant Sweep(IsOpenStreetMapLayer, layers.items, i, collected) == Sweep(IsOpenStreetMapLayer, old(layers.items), 0, [])
        decreases |layers.items| - i
      {
        var layer := layers.items[i];
        i := i + 1;
        if IsOpenStreetMapLayer(layer) {
          collected := collected + [layer];
          layers.items := RemoveFirst(layers.items, layer);
        }
      }
      if collected != [] {
        message := SkipMessage(collected, layers.items);
        return true, message, layers;
      }
    }
    return false, message, layers;
  }

  // ----- What the loop does -----

  /** The loop only moves layers from the list to the collected ones, and collects only OpenStreetMap layers. */
  lemma SweepConserves(isOsm: Layer -> bool, s: seq<Layer>, i: nat, collected: seq<Layer>)
    ensures var (rest, coll) := Sweep(isOsm, s, i, collected);
      multiset(rest) + multiset(coll) == multiset(s) + multiset(collected)
      && collected <= coll
      && forall k :: |collected| <= k < |coll| ==> isOsm(coll[k])
  {
    SweepMultiset(isOsm, s, i, collected);
    SweepCollectedGrows(isOsm, s, i, collected);
  }

  lemma {:induction false} SweepMultiset(isOsm: Layer -> bool, s: seq<Layer>, i: nat, collected: seq<Layer>)
    ensures multiset(Sweep(isOsm, s, i, collected).0) + multiset(Sweep(isOsm, s, i, collected).1)
            == multiset(s) + multiset(collected)
    decreases |s| - i
  {
    if i < |s| {
      if isOsm(s[i]) {
        var s', c' := RemoveFirst(s, s[i]), collected + [s[i]];
        RemoveFirstMultiset(s, s[i]);
        assert s[i] in multiset(s);
        assert multiset(s') + multiset(c') == multiset(s) + multiset(collected);
        SweepMultiset(isOsm, s', i + 1, c');
      } else {
        SweepMultiset(isOsm, s, i + 1, collected);
      }
    }
  }

  lemma {:induction false} SweepCollectedGrows(isOsm: Layer -> bool, s: seq<Layer>, i: nat, collected: seq<Layer>)
    ensures var coll := Sweep(isOsm, s, i, collected).1;
      collected <= coll && forall k :: |collected| <= k < |coll| ==> isOsm(coll[k])
    decreases |s| - i
  {
    if i < |s| {
      if isOsm(s[i]) {
        SweepCollectedGrows(isOsm, RemoveFirst(s, s[i]), i + 1, collected + [s[i]]);
      } else {
        SweepCollectedGrows(isOsm, s, i + 1, collected);
      }
    }
  }

  /** Layers that are not OpenStreetMap layers are never removed. */
  lemma {:induction false} SweepKeepsOthers(isOsm: Layer -> bool, s: seq<Layer>, i: nat, collected: seq<Layer>, x: Layer)
    requires !isOsm(x)
    ensures multiset(Sweep(isOsm, s, i, collected).0)[x] == multiset(s)[x]
    decreases |s| - i
  {
    if i < |s| {
      if isOsm(s[i]) {
        RemoveFirstMultiset(s, s[i]);
        SweepKeepsOthers(isOsm, RemoveFirst(s, s[i]), i + 1, collected + [s[i]], x);
      } else {
        SweepKeepsOthers(isOsm, s, i + 1, collected, x);
      }
    }
  }

  /** Some layer is collected exactly when an OpenStreetMap layer lies at or after the starting position. */
  lemma {:induction false} SweepCollectsIff(isOsm: Layer -> bool, s: seq<Layer>, i: nat, collected: seq<Layer>)
    ensures |Sweep(isOsm, s, i, collected).1| > |collected| <==> exists k :: i <= k < |s| && isOsm(s[k])
    decreases |s| - i
  {
    if i < |s| {
      if isOsm(s[i]) {
        SweepConserves(isOsm, RemoveFirst(s, s[i]), i + 1, collected + [s[i]]);
      } else {
        SweepCollectsIff(isOsm, s, i + 1, collected);
        if exists k :: i <= k < |s| && isOsm(s[k]) {
          var k :| i <= k < |s| && isOsm(s[k]);
          assert k != i;
        }
      }
    }
  }

  /** Without any OpenStreetMap layer ahead, the loop changes nothing. */
  lemma {:induction false} SweepNoneAhead(isOsm: Layer -> bool, s: seq<Layer>, i: nat, collected: seq<Layer>)
    requires forall k :: i <= k < |s| ==> !isOsm(s[k])
    ensures Sweep(isOsm, s, i, collected) == (s, collected)
    decreases |s| - i
  {
    if i < |s| {
      SweepNoneAhead(isOsm, s, i + 1, collected);
    }
  }

  /**
   * The result says layers were skipped exactly when the threshold is
   * exceeded and the list has an OpenStreetMap layer; otherwise the list
   * comes back unchanged with an empty message.
   */
  lemma CheckViolatedIff(isOsm: Layer -> bool, layers: seq<Layer>, tilesCount: int)
    ensures CheckAsWritten(isOsm, layers, tilesCount).violated
            <==> tilesCount > MaximumOpenStreetMapTilesFetch
                 && exists k :: 0 <= k < |layers| && isOsm(layers[k])
    ensures !CheckAsWritten(isOsm, layers, tilesCount).violated
            ==> CheckAsWritten(isOsm, layers, tilesCount) == CheckResult(false, [], layers)
  {
    SweepCollectsIff(isOsm, layers, 0, []);
    if !exists k :: 0 <= k < |layers| && isOsm(layers[k]) {
      SweepNoneAhead(isOsm, layers, 0, []);
    }
  }

  /** `a` is `b` with some elements left out, the rest in their order. */
  ghost predicate IsSubsequence(a: seq<Layer>, b: seq<Layer>)
    decreases |b|
  {
    if a == [] then true
    else if b == [] then false
    else if a[0] == b[0] then IsSubsequence(a[1..], b[1..])
    else IsSubsequence(a, b[1..])
  }

  lemma {:induction false} SubsequenceOfSelf(s: seq<Layer>)
    ensures IsSubsequence(s, s)
  {
    if s != [] {
      SubsequenceOfSelf(s[1..]);
    }
  }

  lemma {:induction false} SubsequenceDropHead(a: seq<Layer>, b: seq<Layer>)
    requires a != [] && IsSubsequence(a, b)
    ensures IsSubsequence(a[1..], b)
    decreases |b|
  {
    if a[1..] != [] {
      if a[0] == b[0] {
        SubsequenceDropHead(a[1..], b[1..]);
        SubsequenceTail(a[1..][1..], b[1..], b);
      } else {
        SubsequenceDropHead(a, b[1..]);
        SubsequenceTail(a[1..], b[1..], b);
      }
    }
  }

  lemma {:induction false} SubsequenceTail(a: seq<Layer>, tail: seq<Layer>, b: seq<Layer>)
    requires b != [] && tail == b[1..] && IsSubsequence(a, tail)
    ensures IsSubsequence(a, b)
    decreases |b|, 0
  {
    if a != [] && a[0] == b[0] {
      SubsequenceDropHead(a, tail);
    }
  }

  lemma {:induction false} SubsequenceTrans(a: seq<Layer>, b: seq<Layer>, c: seq<Layer>)
    requires IsSubsequence(a, b) && IsSubsequence(b, c)
    ensures IsSubsequence(a, c)
    decreases |c|
  {
    if a != [] {
      if b[0] == c[0] {
        if a[0] == b[0] {
          SubsequenceTrans(a[1..], b[1..], c[1..]);
        } else {
          SubsequenceTrans(a, b[1..], c[1..]);
        }
      } else {
        SubsequenceTrans(a, b, c[1..]);
        SubsequenceTail(a, c[1..], c);
      }
    }
  }

  lemma {:induction false} RemoveFirstSubsequence(s: seq<Layer>, x: Layer)
    ensures IsSubsequence(RemoveFirst(s, x), s)
  {
    if s != [] {
      if s[0] == x {
        SubsequenceOfSelf(s[1..]);
        SubsequenceTail(s[1..], s[1..], s);
      } else {
        RemoveFirstSubsequence(s[1..], x);
        assert ([s[0]] + RemoveFirst(s[1..], x))[1..] == RemoveFirst(s[1..], x);
      }
    }
  }

  lemma {:induction false} SweepSubsequence(isOsm: Layer -> bool, s: seq<Layer>, i: nat, collected: seq<Layer>)
    ensures IsSubsequence(Sweep(isOsm, s, i, collected).0, s)
    decreases |s| - i
  {
    if i >= |s| {
      SubsequenceOfSelf(s);
    } else if isOsm(s[i]) {
      var s' := RemoveFirst(s, s[i]);
      SweepSubsequence(isOsm, s', i + 1, collected + [s[i]]);
      RemoveFirstSubsequence(s, s[i]);
      SubsequenceTrans(Sweep(isOsm, s', i + 1, collected + [s[i]]).0, s', s);
    } else {
      SweepSubsequence(isOsm, s, i + 1, collected);
    }
  }

  /**
   * Every skipped layer is an OpenStreetMap layer and was removed: the
   * returned list together with the skipped layers is the input, no other
   * layer is lost, and the layers kept stay in their input order.
   */
  lemma CheckSkipsOnlyOsm(isOsm: Layer -> bool, layers: seq<Layer>, tilesCount: int)
    requires tilesCount > MaximumOpenStreetMapTilesFetch
    ensures var (rest, coll) := Sweep(isOsm, layers, 0, []);
      CheckAsWritten(isOsm, layers, tilesCount).layers == rest
      && multiset(rest) + multiset(coll) == multiset(layers)
      && IsSubsequence(rest, layers)
      && (forall k :: 0 <= k < |coll| ==> isOsm(coll[k]))
      && (forall x :: !isOsm(x) ==> multiset(rest)[x] == multiset(layers)[x])
  {
    SweepConserves(isOsm, layers, 0, []);
    SweepSubsequence(isOsm, layers, 0, []);
    forall x | !isOsm(x)
      ensures multiset(Sweep(isOsm, layers, 0, []).0)[x] == multiset(layers)[x]
    {
      SweepKeepsOthers(isOsm, layers, 0, [], x);
    }
  }

  // ----- The skip, for lists of distinct layers -----

  /** No layer occurs twice. */
  ghost predicate Distinct(s: seq<Layer>) {
    forall x :: multiset(s)[x] <= 1
  }

  /**
   * What the loop keeps of a list of distinct layers: each OpenStreetMap
   * layer it examines is dropped and its successor is kept unexamined.
   */
  function SkipKept(isOsm: Layer -> bool, s: seq<Layer>): seq<Layer> {
    if s == [] then []
    else if !isOsm(s[0]) then [s[0]] + SkipKept(isOsm, s[1..])
    else if |s| == 1 then []
    else [s[1]] + SkipKept(isOsm, s[2..])
  }

  /** The layers the loop collects from a list of distinct layers. */
  function SkipCollected(isOsm: Layer -> bool, s: seq<Layer>): seq<Layer> {
    if s == [] then []
    else if !isOsm(s[0]) then SkipCollected(isOsm, s[1..])
    else if |s| == 1 then [s[0]]
    else [s[0]] + SkipCollected(isOsm, s[2..])
  }

  lemma {:induction false} RemoveFirstAt(kept: seq<Layer>, rest: seq<Layer>)
    requires |rest| > 0 && rest[0] !in kept
    ensures RemoveFirst(kept + rest, rest[0]) == kept + rest[1..]
  {
    if kept == [] {
      assert kept + rest == rest;
    } else {
      var s := kept + rest;
      assert s[0] == kept[0] && kept[0] != rest[0];
      assert s[1..] == kept[1..] + rest;
      RemoveFirstAt(kept[1..], rest);
      assert RemoveFirst(s, rest[0]) == [kept[0]] + (kept[1..] + rest[1..]);
      AppendAssoc([kept[0]], kept[1..], rest[1..]);
      assert [kept[0]] + kept[1..] == kept;
    }
  }

  /** On distinct layers the loop is the skipping filter, from any point with examined-and-kept prefix. */
  lemma {:induction false} SweepDistinct(isOsm: Layer -> bool, kept: seq<Layer>, rest: seq<Layer>, collected: seq<Layer>)
    requires Distinct(kept + rest)
    ensures Sweep(isOsm, kept + rest, |kept|, collected).0 == kept + SkipKept(isOsm, rest)
    ensures Sweep(isOsm, kept + rest, |kept|, collected).1 == collected + SkipCollected(isOsm, rest)
    decreases |rest|, 1
  {
    if rest == [] {
      assert kept + rest == kept && kept + [] == kept && collected + [] == collected;
    } else if !isOsm(rest[0]) {
      SweepDistinctKeep(isOsm, kept, rest, collected);
    } else if |rest| == 1 {
      SkipStep(isOsm, kept, rest, collected);
      assert kept + rest[1..] == kept && kept + [] == kept;
    } else {
      SweepDistinctSkip(isOsm, kept, rest, collected);
    }
  }

  /** One step of the loop on a layer that is not collected: it joins the kept prefix. */
  lemma KeepStep(isOsm: Layer -> bool, kept: seq<Layer>, rest: seq<Layer>, collected: seq<Layer>)
    requires Distinct(kept + rest) && rest != [] && !isOsm(rest[0])
    ensures Sweep(isOsm, kept + rest, |kept|, collected)
            == Sweep(isOsm, (kept + [rest[0]]) + rest[1..], |kept + [rest[0]]|, collected)
    ensures Distinct((kept + [rest[0]]) + rest[1..])
  {
    assert kept + rest == (kept + [rest[0]]) + rest[1..];
    assert (kept + rest)[|kept|] == rest[0];
  }

  lemma {:induction false} SweepDistinctKeep(isOsm: Layer -> bool, kept: seq<Layer>, rest: seq<Layer>, collected: seq<Layer>)
    requires Distinct(kept + rest) && rest != [] && !isOsm(rest[0])
    ensures Sweep(isOsm, kept + rest, |kept|, collected).0 == kept + SkipKept(isOsm, rest)
    ensures Sweep(isOsm, kept + rest, |kept|, collected).1 == collected + SkipCollected(isOsm, rest)
    decreases |rest|, 0
  {
    KeepStep(isOsm, kept, rest, collected);
    SweepDistinct(isOsm, kept + [rest[0]], rest[1..], collected);
    AppendAssoc(kept, [rest[0]], SkipKept(isOsm, rest[1..]));
  }

  /** Dropping one layer of a list without repeats keeps it without repeats; the layer occurs nowhere else. */
  lemma DistinctWithout(kept: seq<Layer>, x: Layer, tail: seq<Layer>)
    requires Distinct(kept + [x] + tail)
    ensures x !in kept && Distinct(kept + tail)
  {
    var s := kept + [x] + tail;
    assert multiset(s) == multiset(kept) + multiset{x} + multiset(tail);
    assert multiset(s)[x] <= 1;
    forall y ensures multiset(kept + tail)[y] <= 1 {
      assert multiset(kept + tail) == multiset(kept) + multiset(tail);
      assert multiset(s)[y] <= 1;
    }
  }

  /** One step of the loop on a collected layer, in a list without repeats: exactly that layer leaves. */
  lemma SkipStep(isOsm: Layer -> bool, kept: seq<Layer>, rest: seq<Layer>, collected: seq<Layer>)
    requires Distinct(kept + rest) && rest != [] && isOsm(rest[0])
    ensures Sweep(isOsm, kept + rest, |kept|, collected)
            == Sweep(isOsm, kept + rest[1..], |kept| + 1, collected + [rest[0]])
    ensures Distinct(kept + rest[1..])
  {
    var s := kept + rest;
    assert s == kept + [rest[0]] + rest[1..] by {
      assert rest == [rest[0]] + rest[1..];
      AppendAssoc(kept, [rest[0]], rest[1..]);
    }
    DistinctWithout(kept, rest[0], rest[1..]);
    RemoveFirstAt(kept, rest);
    assert s[|kept|] == rest[0];
    SweepCollectsAt(isOsm, s, |kept|, collected);
  }

  /** One unfolding of the loop at an OpenStreetMap layer. */
  lemma SweepCollectsAt(isOsm: Layer -> bool, s: seq<Layer>, i: nat, collected: seq<Layer>)
    requires i < |s| && isOsm(s[i])
    ensures Sweep(isOsm, s, i, collected) == Sweep(isOsm, RemoveFirst(s, s[i]), i + 1, collected + [s[i]])
  {
  }

  /** The same step, with the unexamined successor moved into the kept prefix. */
  lemma SkipStepShifted(isOsm: Layer -> bool, kept: seq<Layer>, rest: seq<Layer>, collected: seq<Layer>)
    requires Distinct(kept + rest) && |rest| >= 2 && isOsm(rest[0])
    ensures Sweep(isOsm, kept + rest, |kept|, collected)
            == Sweep(isOsm, (kept + [rest[1]]) + rest[2..], |kept + [rest[1]]|, collected + [rest[0]])
    ensures Distinct((kept + [rest[1]]) + rest[2..])
  {
    SkipStep(isOsm, kept, rest, collected);
    assert kept + rest[1..] == (kept + [rest[1]]) + rest[2..];
  }

  lemma AppendAssoc(a: seq<Layer>, b: seq<Layer>, c: seq<Layer>)
    ensures (a + b) + c == a + (b + c)
  {
  }

  /** A collected layer leaves the list, and its successor slides into the examined prefix unexamined. */
  lemma {:induction false} SweepDistinctSkip(isOsm: Layer -> bool, kept: seq<Layer>, rest: seq<Layer>, collected: seq<Layer>)
    requires Distinct(kept + rest) && |rest| >= 2 && isOsm(rest[0])
    ensures Sweep(isOsm, kept + rest, |kept|, collected).0 == kept + SkipKept(isOsm, rest)
    ensures Sweep(isOsm, kept + rest, |kept|, collected).1 == collected + SkipCollected(isOsm, rest)
    decreases |rest|, 0
  {
    SkipStepShifted(isOsm, kept, rest, collected);
    SweepDistinct(isOsm, kept + [rest[1]], rest[2..], collected + [rest[0]]);
    AppendAssoc(kept, [rest[1]], SkipKept(isOsm, rest[2..]));
    AppendAssoc(collected, [rest[0]], SkipCollected(isOsm, rest[2..]));
  }

  /** On distinct layers, `check` over the threshold keeps exactly what the skipping filter keeps. */
  lemma CheckDistinct(isOsm: Layer -> bool, layers: seq<Layer>, tilesCount: int)
    requires Distinct(layers) && tilesCount > MaximumOpenStreetMapTilesFetch
    ensures CheckAsWritten(isOsm, layers, tilesCount).layers == SkipKept(isOsm, layers)
    ensures CheckAsWritten(isOsm, layers, tilesCount).violated <==> SkipCollected(isOsm, layers) != []
  {
    SweepDistinct(isOsm, [], layers, []);
    assert [] + layers == layers;
    assert [] + SkipKept(isOsm, layers) == SkipKept(isOsm, layers);
    assert [] + SkipCollected(isOsm, layers) == SkipCollected(isOsm, layers);
  }

  // ----- The intended filter -----

  function FilterOsm(isOsm: Layer -> bool, s: seq<Layer>, osm: bool): (r: seq<Layer>)
    ensures forall k :: 0 <= k < |r| ==> isOsm(r[k]) == osm
  {
    if s == [] then []
    else if isOsm(s[0]) == osm then [s[0]] + FilterOsm(isOsm, s[1..], osm) else FilterOsm(isOsm, s[1..], osm)
  }

  /** The filter keeps every occurrence of each layer it selects. */
  lemma {:induction false} FilterOsmCounts(isOsm: Layer -> bool, s: seq<Layer>, osm: bool)
    ensures forall x :: isOsm(x) == osm ==> multiset(FilterOsm(isOsm, s, osm))[x] == multiset(s)[x]
  {
    if s != [] {
      FilterOsmCounts(isOsm, s[1..], osm);
      assert s == [s[0]] + s[1..];
    }
  }

  /**
   * `check` as intended: over the threshold, every OpenStreetMap layer is
   * skipped and every other one kept, in order.
   */
  function CheckCorrected(isOsm: Layer -> bool, layers: seq<Layer>, tilesCount: int): (r: CheckResult)
    ensures tilesCount <= MaximumOpenStreetMapTilesFetch ==> r == CheckResult(false, [], layers)
    ensures tilesCount > MaximumOpenStreetMapTilesFetch ==>
              (forall k :: 0 <= k < |r.layers| ==> !isOsm(r.layers[k]))
              && (forall x :: !isOsm(x) ==> multiset(r.layers)[x] == multiset(layers)[x])
    ensures r.violated <==> r.message != []
    ensures NoLayersRemaining in r.message <==> r.violated && r.layers == []
  {
    if tilesCount > MaximumOpenStreetMapTilesFetch then
      FilterOsmCounts(isOsm, layers, false);
      var collected := FilterOsm(isOsm, layers, true);
      if collected != [] then CheckResult(true, SkipMessage(collected, FilterOsm(isOsm, layers, false)), FilterOsm(isOsm, layers, false))
      else CheckResult(false, [], FilterOsm(isOsm, layers, false))
    else
      CheckResult(false, [], layers)
  }

  /** No layer is collected exactly when none is an OpenStreetMap layer. */
  lemma FilterOsmNoneIff(isOsm: Layer -> bool, s: seq<Layer>)
    ensures FilterOsm(isOsm, s, true) == [] <==> forall k :: 0 <= k < |s| ==> !isOsm(s[k])
  {
    var r := FilterOsm(isOsm, s, true);
    FilterOsmCounts(isOsm, s, true);
    if r != [] {
      assert multiset(r)[r[0]] > 0;
      assert r[0] in s;
    }
  }

  /** Without OpenStreetMap layers the kept list is the whole list. */
  lemma {:induction false} FilterOsmKeepsAll(isOsm: Layer -> bool, s: seq<Layer>)
    requires forall k :: 0 <= k < |s| ==> !isOsm(s[k])
    ensures FilterOsm(isOsm, s, false) == s
  {
    if s != [] {
      var tail := s[1..];
      assert forall k :: 0 <= k < |tail| ==> tail[k] == s[k + 1];
      FilterOsmKeepsAll(isOsm, tail);
      assert !isOsm(s[0]);
      assert FilterOsm(isOsm, s, false) == [s[0]] + FilterOsm(isOsm, tail, false);
      assert s == [s[0]] + tail;
    }
  }

  lemma FilterOsmEmpty(isOsm: Layer -> bool, s: seq<Layer>)
    ensures FilterOsm(isOsm, s, true) == [] <==> forall k :: 0 <= k < |s| ==> !isOsm(s[k])
    ensures FilterOsm(isOsm, s, true) == [] ==> FilterOsm(isOsm, s, false) == s
  {
    FilterOsmNoneIff(isOsm, s);
    if FilterOsm(isOsm, s, true) == [] {
      FilterOsmKeepsAll(isOsm, s);
    }
  }

  /** The corrected check reports a violation exactly when the as-written one does. */
  lemma CheckCorrectedViolatedIff(isOsm: Layer -> bool, layers: seq<Layer>, tilesCount: int)
    ensures CheckCorrected(isOsm, layers, tilesCount).violated == CheckAsWritten(isOsm, layers, tilesCount).violated
  {
    FilterOsmEmpty(isOsm, layers);
    CheckViolatedIff(isOsm, layers, tilesCount);
  }

  /** Where no two OpenStreetMap layers are adjacent, the skip is harmless and both checks keep the same layers. */
  lemma {:induction false} SkipHarmlessWithoutNeighbours(isOsm: Layer -> bool, s: seq<Layer>)
    requires forall k :: 0 <= k < |s| - 1 && isOsm(s[k]) ==> !isOsm(s[k + 1])
    ensures SkipKept(isOsm, s) == FilterOsm(isOsm, s, false) && SkipCollected(isOsm, s) == FilterOsm(isOsm, s, true)
  {
    if s != [] {
      if !isOsm(s[0]) || |s| == 1 {
        SkipHarmlessWithoutNeighbours(isOsm, s[1..]);
      } else {
        var t := s[2..];
        assert !isOsm(s[1]);
        assert s[1..][1..] == t;
        SkipHarmlessWithoutNeighbours(isOsm, t);
      }
    }
  }

  /**
   * Two adjacent OpenStreetMap layers over the threshold: the loop removes
   * the first, never examines the second, and the second stays in the list.
   */
  lemma AdjacentOsmSecondRemains(isOsm: Layer -> bool, a: Layer, b: Layer)
    requires a != b && isOsm(a) && isOsm(b)
    ensures CheckAsWritten(isOsm, [a, b], 5001) == CheckResult(true, SkipMessage([a], [b]), [b])
    ensures CheckCorrected(isOsm, [a, b], 5001).layers == []
  {
    assert RemoveFirst([a, b], a) == [b];
    assert [] + [a] == [a];
    assert Sweep(isOsm, [a, b], 0, []) == Sweep(isOsm, [b], 1, [a]);
    assert FilterOsm(isOsm, [a, b], false) == FilterOsm(isOsm, [b], false);
  }

  /** Two layers served from `osm.org`, listed one after the other, show the skip. */
  lemma AdjacentOsmExample()
    ensures var a, b := Layer(1, "OSM", "wms", "osm.org"), Layer(2, "OSM again", "WMS", "osm.org");
            CheckAsWritten(IsOpenStreetMapLayer, [a, b], 5001).layers == [b]
            && CheckCorrected(IsOpenStreetMapLayer, [a, b], 5001).layers == []
  {
    var a, b := Layer(1, "OSM", "wms", "osm.org"), Layer(2, "OSM again", "WMS", "osm.org");
    LowerUnchanged("wms");
    LowerUnchanged("osm.org");
    assert Lower("WMS") == "wms" by {
      assert Lower("WMS")[0] == LowerChar('W');
    }
    AdjacentOsmSecondRemains(IsOpenStreetMapLayer, a, b);
  }
}
