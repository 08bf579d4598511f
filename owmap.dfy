/**
 * The helpers of the map widget (Orange/widgets/visualize/owmap.py): the
 * `LeafletMap` state that `set_data`, `selected_area`, `set_marker_opacity`
 * and `redraw_markers_overlay_image` update, and the pure pieces beside it:
 * legend label shortening, latitude/longitude name detection and the guard of
 * `OWMap.train_model`. Coordinates are reals without NaN; the JavaScript side,
 * the projection and the painting are not modelled.
 */
module Maps {
  import opened Wrappers
  import Text
  import opened Schema

  // Errors are the `KeyError`, `ValueError` and `TypeError` of `Schema.DomainError`.


  // ---------------------------------------------------------------- data

  /** A table as the map sees it: a domain, a row count and one column per variable of `chain(domain, domain.metas)`. */
  datatype MapTable = MapTable(domain: Domain, length: nat, columns: seq<seq<real>>)

  /** `chain(domain, domain.metas)`: the variables, then the metas. */
  function AllVars(d: Domain): seq<Variable> {
    Variables(d) + d.metas
  }

  predicate WellFormed(t: MapTable) {
    |t.columns| == |AllVars(t.domain)| && forall i :: 0 <= i < |t.columns| ==> |t.columns[i]| == t.length
  }

  /** `data.get_column_view(v)[0]`. */
  function ColumnView(t: MapTable, v: Variable): (r: seq<real>)
    requires WellFormed(t) && v in AllVars(t.domain)
    ensures |r| == t.length
  {
    t.columns[FirstIndexOf(AllVars(t.domain), v).value]
  }

  /** The four edges of a rectangle on the map. */
  datatype Box = Box(north: real, east: real, south: real, west: real)

  predicate Inside(lat: real, lon: real, b: Box) {
    lat <= b.north && lat >= b.south && lon <= b.east && lon >= b.west
  }

  /** `(lat <= north) & (lat >= south) & (lon <= east) & (lon >= west)`, elementwise. */
  function InBox(lat: seq<real>, lon: seq<real>, b: Box): (r: seq<bool>)
    requires |lat| == |lon|
    ensures |r| == |lat|
  {
    seq(|lat|, i requires 0 <= i < |lat| => Inside(lat[i], lon[i], b))
  }

  /** `mask.nonzero()[0]`: the positions of the true entries, ascending. */
  function TrueIndices(mask: seq<bool>): (r: seq<nat>)
    ensures forall k :: 0 <= k < |r| ==> r[k] < |mask| && mask[r[k]]
    ensures forall i :: 0 <= i < |mask| && mask[i] ==> i in r
    ensures forall a, b :: 0 <= a < b < |r| ==> r[a] < r[b]
    ensures |r| <= |mask|
    decreases |mask|
  {
    if mask == [] then []
    else
      var n := |mask| - 1;
      var front := TrueIndices(mask[..n]);
      assert forall k :: 0 <= k < |front| ==> front[k] < n && mask[front[k]];
      front + (if mask[n] then [n] else [])
  }

  /** An index is listed in `nonzero()` exactly when its entry is true. */
  lemma TrueIndicesMembership(mask: seq<bool>, i: nat)
    ensures i in TrueIndices(mask) <==> i < |mask| && mask[i]
  {
  }

  /** The entry of the previous mask that lines up with position `i`: a one-element mask broadcasts. */
  function PrevAt(prev: seq<bool>, i: nat): bool
    requires i < |prev| || |prev| == 1
  {
    if |prev| == 1 then prev[0] else prev[i]
  }

  /**
   * `indices |= previous` in numpy: same lengths combine entry by entry, a
   * one-element previous mask broadcasts, and any other length is a ValueError.
   */
  function Union(mask: seq<bool>, prev: seq<bool>): (r: Result<seq<bool>, DomainError>)
    ensures r.Ok? <==> |prev| == |mask| || |prev| == 1
    ensures r.Err? ==> r.error == ValueError
    ensures r.Ok? ==> |r.value| == |mask| && forall i :: 0 <= i < |mask| ==> r.value[i] == (mask[i] || PrevAt(prev, i))
  {
    if |prev| == |mask| || |prev| == 1 then
      Ok(seq(|mask|, i requires 0 <= i < |mask| => mask[i] || PrevAt(prev, i)))
    else Err(ValueError)
  }

  /** Adding a rectangle never drops a row that was selected before or that lies in the rectangle. */
  lemma UnionKeepsBoth(mask: seq<bool>, prev: seq<bool>)
    requires |prev| == |mask|
    ensures Union(mask, prev).Ok?
    ensures var u := TrueIndices(Union(mask, prev).value);
            (forall i :: i in TrueIndices(prev) ==> i in u)
            && (forall i :: i in TrueIndices(mask) ==> i in u)
            && (forall i :: i in u ==> i in TrueIndices(prev) || i in TrueIndices(mask))
  {
    var u := Union(mask, prev).value;
    forall i | i in TrueIndices(prev) ensures i in TrueIndices(u) {
      TrueIndicesMembership(prev, i);
      TrueIndicesMembership(u, i);
    }
    forall i | i in TrueIndices(mask) ensures i in TrueIndices(u) {
      TrueIndicesMembership(mask, i);
      TrueIndicesMembership(u, i);
    }
    forall i | i in TrueIndices(u) ensures i in TrueIndices(prev) || i in TrueIndices(mask) {
      TrueIndicesMembership(u, i);
      TrueIndicesMembership(prev, i);
      TrueIndicesMembership(mask, i);
    }
  }

  /** The points shown in a view: the ascending indices of the rows inside the bounds. */
  function Visible(lat: seq<real>, lon: seq<real>, b: Box): (r: seq<nat>)
    requires |lat| == |lon|
    ensures forall i :: 0 <= i < |lat| ==> (i in r <==> Inside(lat[i], lon[i], b))
    ensures forall k :: 0 <= k < |r| ==> r[k] < |lat|
    ensures forall a, c :: 0 <= a < c < |r| ==> r[a] < r[c]
  {
    TrueIndices(InBox(lat, lon, b))
  }

  /** Up to this many visible points are drawn as JavaScript markers; more go to the overlay image. */
  const JsMarkerLimit := 500

  /** `255 * opacity // 100`: floor division by a positive divisor. */
  function Opacity(percent: int): (r: int)
    ensures r * 100 <= 255 * percent < r * 100 + 100
    ensures 0 <= percent <= 100 ==> 0 <= r <= 255
  {
    255 * percent / 100
  }

  /** The opacity byte grows with the percentage and spans 2..255 over the slider's range 1..100. */
  lemma OpacityMonotone(p: int, q: int)
    requires p <= q
    ensures Opacity(p) <= Opacity(q)
    ensures Opacity(1) == 2 && Opacity(100) == 255
  {
    var a, b := Opacity(p), Opacity(q);
    assert a * 100 <= 255 * p <= 255 * q < b * 100 + 100;
  }

  // ---------------------------------------------------------------- the map view

  /** An attribute argument of `set_data`, tested for truth the way Python does. */
  predicate Truthy(k: Option<Key>) {
    match k
    case None => false
    case Some(ByName(n)) => n != ""
    case Some(ByIndex(i)) => i != 0
    case Some(ByVar(_)) => true
  }

  /** `set_data` looks the attributes up only for non-empty data and two given attributes. */
  predicate Locates(data: Option<MapTable>, latKey: Option<Key>, lonKey: Option<Key>) {
    data.Some? && data.value.length > 0 && Truthy(latKey) && Truthy(lonKey)
  }

  /** What a redraw did: nothing, or the visible points and whether they went to the JavaScript markers. */
  datatype Redraw = Skipped | Drawn(visible: seq<nat>, jsPath: bool, shownShapes: seq<string>)

  /**
   * Why `selected_area` fails: `get_column_view` called on missing data
   * (AttributeError), a missing coordinate attribute, or the `|=` of masks whose
   * shapes do not broadcast (ValueError).
   */
  datatype AreaError = NoData | NoColumn | MaskMismatch

  class LeafletMap {
    var data: Option<MapTable>
    var latAttr: Option<Variable>
    var lonAttr: Option<Variable>
    /** `_selected_indices`: the stored selection mask, or none. */
    var selectedIndices: Option<seq<bool>>
    /** `_opacity`, 0..255. */
    var opacity: int
    /** `_drawing_args`: the bounds of the last view drawn. */
    var drawingArgs: Option<Box>
    var legendShapes: seq<string>
    /** The lists emitted through `selectionChanged`, in order. */
    var selectionsEmitted: seq<seq<nat>>

    constructor()
      ensures data.None? && latAttr.None? && lonAttr.None? && selectedIndices.None?
      ensures opacity == 255 && drawingArgs.None? && legendShapes == [] && selectionsEmitted == []
    {
      data, latAttr, lonAttr, selectedIndices := None, None, None, None;
      opacity, drawingArgs, legendShapes, selectionsEmitted := 255, None, [], [];
    }

    /** Data and both coordinate attributes are present, and the attributes are columns of the data. */
    predicate Ready()
      reads this
    {
      data.Some? && WellFormed(data.value) && latAttr.Some? && lonAttr.Some?
      && latAttr.value in AllVars(data.value.domain) && lonAttr.value in AllVars(data.value.domain)
    }

    /**
     * `set_data(data, lat_attr, lon_attr)`: the data is stored and both attributes
     * cleared; unless the data is missing or empty or an attribute is not given,
     * they are looked up in the domain, latitude first, and a failing lookup
     * raises KeyError. The stored selection is kept.
     */
    method SetData(newData: Option<MapTable>, latKey: Option<Key>, lonKey: Option<Key>) returns (err: Option<DomainError>)
      requires newData.Some? ==> WellFormed(newData.value)
      modifies this
      ensures data == newData
      ensures !Locates(newData, latKey, lonKey) ==> latAttr.None? && lonAttr.None? && err.None?
      ensures Locates(newData, latKey, lonKey) ==>
                var d := newData.value.domain;
                var la, lo := Lookup(d, latKey.value), Lookup(d, lonKey.value);
                (la.Err? ==> latAttr.None? && lonAttr.None? && err == Some(KeyError))
                && (la.Ok? && lo.Err? ==> latAttr == Some(la.value) && lonAttr.None? && err == Some(KeyError))
                && (la.Ok? && lo.Ok? ==> latAttr == Some(la.value) && lonAttr == Some(lo.value) && err.None? && Ready())
      ensures selectedIndices == old(selectedIndices) && opacity == old(opacity)
      ensures drawingArgs == old(drawingArgs) && legendShapes == old(legendShapes)
      ensures selectionsEmitted == old(selectionsEmitted)
    {
      data := newData;
      latAttr := None;
      lonAttr := None;
      if !Locates(newData, latKey, lonKey) {
        return None;
      }
      var d := newData.value.domain;
      var la := Lookup(d, latKey.value);
      if la.Err? {
        return Some(KeyError);
      }
      latAttr := Some(la.value);
      var lo := Lookup(d, lonKey.value);
      if lo.Err? {
        return Some(KeyError);
      }
      lonAttr := Some(lo.value);
      return None;
    }

    /**
     * `selected_area(north, east, south, west)`: a rectangle with area selects the
     * rows inside it, OR-ed with the stored selection, and stores the result; a
     * rectangle without area clears the stored selection. The indices of the
     * selected rows are emitted either way (none when cleared). Reading the columns
     * fails without data or without both attributes, before anything changes.
     */
    method SelectedArea(b: Box) returns (err: Option<AreaError>)
      requires data.Some? && latAttr.Some? && lonAttr.Some? ==> Ready()
      modifies this
      ensures !(b.north != b.south && b.east != b.west) ==>
                selectedIndices.None? && selectionsEmitted == old(selectionsEmitted) + [[]] && err.None?
      ensures b.north != b.south && b.east != b.west && data.None? ==>
                err == Some(NoData) && selectedIndices == old(selectedIndices) && selectionsEmitted == old(selectionsEmitted)
      ensures b.north != b.south && b.east != b.west && data.Some? && (latAttr.None? || lonAttr.None?) ==>
                err == Some(NoColumn) && selectedIndices == old(selectedIndices) && selectionsEmitted == old(selectionsEmitted)
      ensures b.north != b.south && b.east != b.west && Ready() ==>
                var t := data.value;
                var mask := InBox(ColumnView(t, latAttr.value), ColumnView(t, lonAttr.value), b);
                (old(selectedIndices).None? ==>
                   selectedIndices == Some(mask) && selectionsEmitted == old(selectionsEmitted) + [TrueIndices(mask)]
                   && err.None?)
                && (old(selectedIndices).Some? && Union(mask, old(selectedIndices).value).Ok? ==>
                      var u := Union(mask, old(selectedIndices).value).value;
                      selectedIndices == Some(u) && selectionsEmitted == old(selectionsEmitted) + [TrueIndices(u)]
                      && err.None?)
                && (old(selectedIndices).Some? && Union(mask, old(selectedIndices).value).Err? ==>
                      selectedIndices == old(selectedIndices) && selectionsEmitted == old(selectionsEmitted)
                      && err == Some(MaskMismatch))
      ensures data == old(data) && latAttr == old(latAttr) && lonAttr == old(lonAttr)
      ensures opacity == old(opacity) && drawingArgs == old(drawingArgs) && legendShapes == old(legendShapes)
    {
      if b.north != b.south && b.east != b.west {
        if data.None? {
          return Some(NoData);
        }
        if latAttr.None? || lonAttr.None? {
          return Some(NoColumn);
        }
        var t := data.value;
        var mask := InBox(ColumnView(t, latAttr.value), ColumnView(t, lonAttr.value), b);
        if selectedIndices.Some? {
          var u := Union(mask, selectedIndices.value);
          if u.Err? {
            return Some(MaskMismatch);
          }
          mask := u.value;
        }
        selectedIndices := Some(mask);
        selectionsEmitted := selectionsEmitted + [TrueIndices(mask)];
      } else {
        selectedIndices := None;
        selectionsEmitted := selectionsEmitted + [[]];
      }
      return None;
    }

    /** `set_marker_opacity(percent)`: the marker alpha becomes the byte `Opacity(percent)`. */
    method SetMarkerOpacity(percent: int)
      modifies this
      ensures opacity == Opacity(percent)
      ensures 0 <= percent <= 100 ==> 0 <= opacity <= 255
      ensures data == old(data) && latAttr == old(latAttr) && lonAttr == old(lonAttr)
      ensures selectedIndices == old(selectedIndices) && drawingArgs == old(drawingArgs)
      ensures legendShapes == old(legendShapes) && selectionsEmitted == old(selectionsEmitted)
    {
      opacity := Opacity(percent);
    }

    /**
     * The deciding part of `redraw_markers_overlay_image(*args)`: without bounds
     * (given or remembered) or without both coordinate attributes nothing is drawn.
     * Otherwise given bounds are remembered, the points inside the bounds are the
     * visible ones, and they go to the JavaScript markers exactly when there are at
     * most 500 of them; only that path shows the shape legend.
     */
    method RedrawMarkers(args: Option<Box>) returns (outcome: Redraw)
      requires (args.Some? || drawingArgs.Some?) && latAttr.Some? && lonAttr.Some? ==> Ready()
      modifies this
      ensures outcome.Skipped? <==> (args.None? && old(drawingArgs).None?) || latAttr.None? || lonAttr.None?
      ensures outcome.Skipped? ==> drawingArgs == old(drawingArgs)
      ensures outcome.Drawn? ==> Ready() && drawingArgs.Some?
      ensures outcome.Drawn? ==>
                drawingArgs == (if args.Some? then args else old(drawingArgs))
                && var t := data.value;
                outcome.visible == Visible(ColumnView(t, latAttr.value), ColumnView(t, lonAttr.value), drawingArgs.value)
                && (outcome.jsPath <==> |outcome.visible| <= JsMarkerLimit)
                && outcome.shownShapes == (if outcome.jsPath then legendShapes else [])
      ensures data == old(data) && latAttr == old(latAttr) && lonAttr == old(lonAttr)
      ensures selectedIndices == old(selectedIndices) && opacity == old(opacity)
      ensures legendShapes == old(legendShapes) && selectionsEmitted == old(selectionsEmitted)
    {
      if (args.None? && drawingArgs.None?) || latAttr.None? || lonAttr.None? {
        return Skipped;
      }
      if args.Some? {
        drawingArgs := args;
      }
      var t := data.value;
      var visible := Visible(ColumnView(t, latAttr.value), ColumnView(t, lonAttr.value), drawingArgs.value);
      var jsPath := |visible| <= JsMarkerLimit;
      return Drawn(visible, jsPath, if jsPath then legendShapes else []);
    }
  }

  // ---------------------------------------------------------------- legend labels

  predicate AnyLonger(strs: seq<string>, n: nat) {
    exists i :: 0 <= i < |strs| && |strs[i]| > n
  }

  /** A discrete label over 12 characters keeps its first 6 and last 5 around an ellipsis. */
  function Shorten(s: string): (r: string)
    ensures |s| <= 12 ==> r == s
    ensures |s| > 12 ==> |r| == 12 && Text.StartsWith(r, s[..6]) && Text.EndsWith(r, s[|s| - 5..]) && r[6] == '…'
    ensures |r| <= 12
  {
    if |s| <= 12 then s else s[..6] + "…" + s[|s| - 5..]
  }

  /**
   * `_legend_values(variable, values)` given the labels `reprs` (`repr_val` of each
   * value) and their scientific renderings `scientific`: labels stay as they are
   * unless one is longer than 10 characters; then time labels break at spaces,
   * continuous ones become scientific, and discrete ones are shortened.
   */
  function LegendValues(v: Variable, reprs: seq<string>, scientific: seq<string>): (r: seq<string>)
    ensures !AnyLonger(reprs, 10) ==> r == reprs
    ensures AnyLonger(reprs, 10) && v.kind.Continuous? ==> r == scientific
    ensures AnyLonger(reprs, 10) && v.kind.Time? ==>
              |r| == |reprs| && forall i :: 0 <= i < |r| ==>
                (' ' !in r[i] && (' ' !in reprs[i] ==> r[i] == reprs[i]) && r[i] == Text.ReplaceChar(reprs[i], ' ', "<br>"))
    ensures v.kind.Discrete? ==>
              |r| == |reprs| && forall i :: 0 <= i < |r| ==> |r[i]| <= 12 && (|reprs[i]| <= 12 ==> r[i] == reprs[i])
    ensures AnyLonger(reprs, 10) && v.kind.Discrete? ==> forall i :: 0 <= i < |r| ==> r[i] == Shorten(reprs[i])
    ensures v.kind.StringKind? ==> r == reprs
  {
    if !AnyLonger(reprs, 10) then reprs
    else if v.kind.Time? then seq(|reprs|, i requires 0 <= i < |reprs| => Text.ReplaceChar(reprs[i], ' ', "<br>"))
    else if v.kind.Continuous? then scientific
    else if v.kind.Discrete? then seq(|reprs|, i requires 0 <= i < |reprs| => Shorten(reprs[i]))
    else reprs
  }

  /** A time label of a date and a time joined by one space breaks into two legend lines. */
  lemma LegendBreaksTimeLabel(date: string, time: string)
    requires ' ' !in date && ' ' !in time
    ensures Text.ReplaceChar(date + " " + time, ' ', "<br>") == date + "<br>" + time
  {
    Text.ReplaceCharAppend(date + " ", time, ' ', "<br>");
    Text.ReplaceCharAppend(date, " ", ' ', "<br>");
    Text.ReplaceCharSingle(' ', ' ', "<br>");
  }

  /** A long discrete label keeps its first six and last five characters around an ellipsis. */
  lemma LegendShortensDiscreteLabel()
    ensures Shorten("Northwestern Europe") == "Northw…urope"
  {
  }

  // ---------------------------------------------------------------- latitude and longitude detection

  const LatNames: seq<string> := ["latitude", "lat"]
  const LonNames: seq<string> := ["longitude", "long", "lon"]

  /** Each name as written, capitalized and upper-cased, in that order, name by name. */
  function Spellings(names: seq<string>): (r: seq<string>)
    ensures |r| == 3 * |names|
    ensures forall k :: 0 <= k < |names| ==>
              r[3 * k] == names[k] && r[3 * k + 1] == Text.Capitalize(names[k]) && r[3 * k + 2] == Text.Upper(names[k])
  {
    if names == [] then []
    else
      var head := [names[0], Text.Capitalize(names[0]), Text.Upper(names[0])];
      var rest := Spellings(names[1..]);
      assert forall k :: 0 <= k < |names| ==>
          (head + rest)[3 * k] == names[k] && (head + rest)[3 * k + 1] == Text.Capitalize(names[k])
          && (head + rest)[3 * k + 2] == Text.Upper(names[k]) by {
        forall k | 0 <= k < |names|
          ensures (head + rest)[3 * k] == names[k] && (head + rest)[3 * k + 1] == Text.Capitalize(names[k])
                  && (head + rest)[3 * k + 2] == Text.Upper(names[k])
        {
          if k > 0 {
            var i := k - 1;
            assert names[k] == names[1..][i];
            assert 3 * k == 3 + 3 * i;
          }
        }
      }
      head + rest
  }

  predicate NameMatches(name: string, names: seq<string>) {
    exists k :: 0 <= k < |Spellings(names)| && Text.StartsWith(name, Spellings(names)[k])
  }

  /** The position of the first variable whose name starts with a spelling of one of `names`. */
  function FirstMatching(vs: seq<Variable>, names: seq<string>): (r: Option<nat>)
    ensures r.Some? ==> r.value < |vs| && NameMatches(vs[r.value].name, names)
    ensures r.Some? ==> forall j :: 0 <= j < r.value ==> !NameMatches(vs[j].name, names)
    ensures r.None? <==> forall j :: 0 <= j < |vs| ==> !NameMatches(vs[j].name, names)
    decreases |vs|
  {
    if vs == [] then None
    else if NameMatches(vs[0].name, names) then Some(0)
    else
      var rest := FirstMatching(vs[1..], names);
      if rest.Some? then Some(rest.value + 1) else None
  }

  function Pick(vs: seq<Variable>, i: Option<nat>): Option<Variable>
    requires i.Some? ==> i.value < |vs|
  {
    if i.Some? then Some(vs[i.value]) else None
  }

  /**
   * `_find_lat_lon` as written: the first variable of the domain (not the metas)
   * named like a latitude, and the first named like a longitude, of any type.
   */
  function FindLatLonAsWritten(d: Domain): (r: (Option<Variable>, Option<Variable>))
    ensures r.0.Some? ==> r.0.value in Variables(d) && NameMatches(r.0.value.name, LatNames)
    ensures r.1.Some? ==> r.1.value in Variables(d) && NameMatches(r.1.value.name, LonNames)
    ensures r.0.None? <==> forall j :: 0 <= j < |Variables(d)| ==> !NameMatches(Variables(d)[j].name, LatNames)
    ensures r.1.None? <==> forall j :: 0 <= j < |Variables(d)| ==> !NameMatches(Variables(d)[j].name, LonNames)
  {
    var vs := Variables(d);
    (Pick(vs, FirstMatching(vs, LatNames)), Pick(vs, FirstMatching(vs, LonNames)))
  }

  /** `[var for var in all_vars if var.is_continuous]`. */
  function ContinuousOf(vs: seq<Variable>): (r: seq<Variable>)
    ensures forall v :: v in r <==> v in vs && IsContinuous(v)
    ensures |r| <= |vs|
    decreases |vs|
  {
    if vs == [] then []
    else
      assert vs == [vs[0]] + vs[1..];
      (if IsContinuous(vs[0]) then [vs[0]] else []) + ContinuousOf(vs[1..])
  }

  /** One variable is kept exactly when it is continuous. */
  lemma ContinuousOfSingle(v: Variable)
    ensures ContinuousOf([v]) == (if IsContinuous(v) then [v] else [])
  {
    assert [v][1..] == [];
  }

  /** Each continuous variable is kept as often as it occurs; no other variable is kept. */
  lemma {:induction false} ContinuousOfCounts(vs: seq<Variable>, v: Variable)
    ensures multiset(ContinuousOf(vs))[v] == (if IsContinuous(v) then multiset(vs)[v] else 0)
    decreases |vs|
  {
    if vs != [] {
      var head := if IsContinuous(vs[0]) then [vs[0]] else [];
      assert vs == [vs[0]] + vs[1..];
      assert ContinuousOf(vs) == head + ContinuousOf(vs[1..]);
      assert multiset(vs) == multiset([vs[0]]) + multiset(vs[1..]);
      assert multiset(ContinuousOf(vs)) == multiset(head) + multiset(ContinuousOf(vs[1..]));
      ContinuousOfCounts(vs[1..], v);
    }
  }

  /** The filter keeps the order: filtering a concatenation concatenates the filtered parts. */
  lemma {:induction false} ContinuousOfAppend(a: seq<Variable>, b: seq<Variable>)
    ensures ContinuousOf(a + b) == ContinuousOf(a) + ContinuousOf(b)
    decreases |a|
  {
    if a == [] {
      assert a + b == b;
    } else {
      assert (a + b)[0] == a[0] && (a + b)[1..] == a[1..] + b;
      ContinuousOfAppend(a[1..], b);
    }
  }

  /**
   * What `OWMap.set_data` does with the detected pair as written: when both are
   * found, their positions among the continuous variables select the combo box
   * entries, and `list.index` raises ValueError for a variable that is not there.
   */
  function ComboIndicesAsWritten(d: Domain): (r: Result<Option<(nat, nat)>, DomainError>)
    ensures r.Err? ==> r.error == ValueError
    ensures r.Ok? && r.value.Some? ==>
              var cs := ContinuousOf(AllVars(d));
              var (lat, lon) := FindLatLonAsWritten(d);
              r.value.value.0 < |cs| && r.value.value.1 < |cs|
              && Some(cs[r.value.value.0]) == lat && Some(cs[r.value.value.1]) == lon
  {
    var (lat, lon) := FindLatLonAsWritten(d);
    if lat.Some? && lon.Some? then
      var cs := ContinuousOf(AllVars(d));
      match (FirstIndexOf(cs, lat.value), FirstIndexOf(cs, lon.value))
      case (Some(i), Some(j)) => Ok(Some((i, j)))
      case _ => Err(ValueError)
    else Ok(None)
  }

  /** A discrete variable named like a latitude is detected, and then not found among the continuous ones. */
  lemma ComboIndicesRejectDiscreteLatitude()
    ensures var d := Domain([Variable("lat", Discrete(["n", "s"]), None), Variable("lon", Continuous, None)], [], []);
            ComboIndicesAsWritten(d) == Err(ValueError)
  {
    var lat := Variable("lat", Discrete(["n", "s"]), None);
    var lon := Variable("lon", Continuous, None);
    var d := Domain([lat, lon], [], []);
    assert Spellings(LatNames)[3] == "lat";
    assert Text.StartsWith("lat", "lat");
    assert NameMatches(lat.name, LatNames);
    assert Spellings(LonNames)[6] == "lon";
    assert Text.StartsWith("lon", "lon");
    assert NameMatches(lon.name, LonNames);
    assert FindLatLonAsWritten(d).0 == Some(lat);
    assert lat !in ContinuousOf(AllVars(d));
  }

  /** `_find_lat_lon` restricted to continuous variables, the ones the combo boxes list. */
  function FindLatLon(d: Domain): (r: (Option<Variable>, Option<Variable>))
    ensures r.0.Some? ==> r.0.value in Variables(d) && IsContinuous(r.0.value) && NameMatches(r.0.value.name, LatNames)
    ensures r.1.Some? ==> r.1.value in Variables(d) && IsContinuous(r.1.value) && NameMatches(r.1.value.name, LonNames)
    ensures r.0.None? <==> forall v :: v in Variables(d) && IsContinuous(v) ==> !NameMatches(v.name, LatNames)
    ensures r.1.None? <==> forall v :: v in Variables(d) && IsContinuous(v) ==> !NameMatches(v.name, LonNames)
  {
    var cs := ContinuousOf(Variables(d));
    var i, j := FirstMatching(cs, LatNames), FirstMatching(cs, LonNames);
    assert i.None? ==> forall v :: v in Variables(d) && IsContinuous(v) ==> !NameMatches(v.name, LatNames) by {
      if i.None? {
        forall v | v in Variables(d) && IsContinuous(v) ensures !NameMatches(v.name, LatNames) {
          var k :| 0 <= k < |cs| && cs[k] == v;
        }
      }
    }
    assert j.None? ==> forall v :: v in Variables(d) && IsContinuous(v) ==> !NameMatches(v.name, LonNames) by {
      if j.None? {
        forall v | v in Variables(d) && IsContinuous(v) ensures !NameMatches(v.name, LonNames) {
          var k :| 0 <= k < |cs| && cs[k] == v;
        }
      }
    }
    (Pick(cs, i), Pick(cs, j))
  }

  /** The combo box positions of the detected pair, always found once detection keeps to continuous variables. */
  function ComboIndices(d: Domain): (r: Option<(nat, nat)>)
    ensures r.Some? <==> FindLatLon(d).0.Some? && FindLatLon(d).1.Some?
    ensures r.Some? ==>
              var cs := ContinuousOf(AllVars(d));
              r.value.0 < |cs| && r.value.1 < |cs|
              && Some(cs[r.value.0]) == FindLatLon(d).0 && Some(cs[r.value.1]) == FindLatLon(d).1
  {
    var (lat, lon) := FindLatLon(d);
    if lat.Some? && lon.Some? then
      var cs := ContinuousOf(AllVars(d));
      assert lat.value in cs && lon.value in cs;
      Some((FirstIndexOf(cs, lat.value).value, FirstIndexOf(cs, lon.value).value))
    else None
  }

  lemma SpellingsOfLatNames()
    ensures Spellings(LatNames) == ["latitude", "Latitude", "LATITUDE", "lat", "Lat", "LAT"]
  {
    assert Text.Capitalize("latitude") == "Latitude";
    assert Text.Upper("latitude") == "LATITUDE";
    assert Text.Capitalize("lat") == "Lat";
    assert Text.Upper("lat") == "LAT";
  }

  /** A name reads as a latitude exactly when it starts with `lat`, `Lat` or `LAT`: the long spellings add nothing. */
  lemma LatitudeByShortPrefix(name: string)
    ensures NameMatches(name, LatNames) <==>
            Text.StartsWith(name, "lat") || Text.StartsWith(name, "Lat") || Text.StartsWith(name, "LAT")
  {
    SpellingsOfLatNames();
    var sp := Spellings(LatNames);
    if NameMatches(name, LatNames) {
      var k :| 0 <= k < |sp| && Text.StartsWith(name, sp[k]);
      if k < 3 {
        Text.StartsWithTransitive(name, sp[k], sp[k + 3]);
      }
    } else {
      assert !Text.StartsWith(name, sp[3]) && !Text.StartsWith(name, sp[4]) && !Text.StartsWith(name, sp[5]);
    }
  }

  lemma CasesOfLongitude()
    ensures Text.Capitalize("longitude") == "Longitude" && Text.Upper("longitude") == "LONGITUDE"
  {
  }

  lemma CasesOfLong()
    ensures Text.Capitalize("long") == "Long" && Text.Upper("long") == "LONG"
  {
  }

  lemma CasesOfLon()
    ensures Text.Capitalize("lon") == "Lon" && Text.Upper("lon") == "LON"
  {
  }

  /** The spellings a name is matched against for a longitude. */
  lemma SpellingsOfLonNames()
    ensures Spellings(LonNames)
            == ["longitude", "Longitude", "LONGITUDE", "long", "Long", "LONG", "lon", "Lon", "LON"]
  {
    CasesOfLongitude();
    CasesOfLong();
    CasesOfLon();
    var r := Spellings(LonNames);
    var want := ["longitude", "Longitude", "LONGITUDE", "long", "Long", "LONG", "lon", "Lon", "LON"];
    assert LonNames[0] == "longitude" && LonNames[1] == "long" && LonNames[2] == "lon";
    assert r[0] == want[0] && r[1] == want[1] && r[2] == want[2];
    assert r[3] == want[3] && r[4] == want[4] && r[5] == want[5];
    assert r[6] == want[6] && r[7] == want[7] && r[8] == want[8];
  }

  /** A name reads as a longitude exactly when it starts with `lon`, `Lon` or `LON`. */
  lemma LongitudeByShortPrefix(name: string)
    ensures NameMatches(name, LonNames) <==>
            Text.StartsWith(name, "lon") || Text.StartsWith(name, "Lon") || Text.StartsWith(name, "LON")
  {
    SpellingsOfLonNames();
    var sp := Spellings(LonNames);
    if NameMatches(name, LonNames) {
      var k :| 0 <= k < |sp| && Text.StartsWith(name, sp[k]);
      if k < 6 {
        Text.StartsWithTransitive(name, sp[k], sp[k % 3 + 6]);
      }
    } else {
      assert !Text.StartsWith(name, sp[6]) && !Text.StartsWith(name, sp[7]) && !Text.StartsWith(name, sp[8]);
    }
  }

  // ---------------------------------------------------------------- the heat map model

  /** The class-attribute entry that means "no target". */
  const NoTarget := "(None)"

  /** The training domain built from the three looked-up variables. */
  function LatLonClass(la: Variable, lo: Variable, c: Variable): (r: Result<Domain, DomainError>)
    ensures r.Ok? <==> IsPrimitive(la) && IsPrimitive(lo) && IsPrimitive(c)
    ensures r.Err? ==> r.error == TypeError
    ensures r.Ok? ==> r.value.attributes == [la, lo] && r.value.classVars == [c] && r.value.metas == []
  {
    var vs := [la, lo] + AsList(Lone(c));
    assert vs[0] == la && vs[1] == lo && vs[2] == c;
    assert AllPrimitive(vs) <==> IsPrimitive(la) && IsPrimitive(lo) && IsPrimitive(c);
    Make([la, lo], Lone(c), [])
  }

  /**
   * The guard of `OWMap.train_model`: with data, a learner, both coordinate names
   * and a class name other than "(None)", the training domain is latitude and
   * longitude with that class, looked up by name (KeyError when missing, and
   * TypeError from the domain constructor for a string variable). Otherwise nothing
   * is trained (`Ok(None)`).
   */
  function TrainingDomain(data: Option<Domain>, hasLearner: bool, lat: string, lon: string, cls: string)
    : (r: Result<Option<Domain>, DomainError>)
    ensures !(data.Some? && hasLearner && lat != "" && lon != "" && cls != "" && cls != NoTarget) ==> r == Ok(None)
    ensures r.Err? ==> r.error == KeyError || r.error == TypeError
    ensures r.Ok? && r.value.Some? ==>
              data.Some? && hasLearner && cls != NoTarget
              && Names(r.value.value.attributes) == [lat, lon] && Names(r.value.value.classVars) == [cls]
              && r.value.value.metas == []
              && forall v :: v in Variables(r.value.value) ==> Contains(data.value, ByVar(v))
    ensures data.Some? && hasLearner && lat != "" && lon != "" && cls != "" && cls != NoTarget ==>
              (r.Ok? <==> Contains(data.value, ByName(lat)) && Contains(data.value, ByName(lon))
                          && Contains(data.value, ByName(cls))
                          && IsPrimitive(Lookup(data.value, ByName(lat)).value)
                          && IsPrimitive(Lookup(data.value, ByName(lon)).value)
                          && IsPrimitive(Lookup(data.value, ByName(cls)).value))
  {
    if data.Some? && hasLearner && lat != "" && lon != "" && cls != "" && cls != NoTarget then
      var d := data.value;
      match (Lookup(d, ByName(lat)), Lookup(d, ByName(lon)), Lookup(d, ByName(cls)))
      case (Ok(la), Ok(lo), Ok(c)) =>
        (match LatLonClass(la, lo, c)
        case Ok(t) => Ok(Some(t))
        case Err(e) => Err(e))
      case _ => Err(KeyError)
    else Ok(None)
  }
}
