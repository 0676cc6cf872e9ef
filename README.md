# Earthquake map style resolver and legend, in Dafny

This project models the logic of the leaflet-challenge earthquake map
(`Starter_Code/static/Leaflet-Part-1/js/logic.js`). The map draws one circle marker per
earthquake in the USGS weekly GeoJSON feed. The model covers:

- the **style resolver**: `markerSize` (magnitude to circle radius), `markerColor`
  (depth in km to one of eight fill colours) and `styleInfo` (one feature to its Leaflet
  path style);
- the **legend control**: `legend.onAdd`, a loop over the grades
  `[0, 2, 5, 10, 25, 50, 100, 150]` that appends a colour swatch and a range label per grade;
- the **info control**: `info.onAdd` and `info.update`, which write a fixed explanatory text.
  `update` assigns to `this._div.innerHTML`, and `this._div` exists only once `onAdd` has
  created it. Before that, the assignment throws a TypeError. The model keeps this case:
  `Update` reports the throw and leaves the control unchanged. The source itself calls
  `update` only from `onAdd`, after creating the panel.

Files:

- `wrappers.dfy` (module `Wrappers`): `Option`, used for values JavaScript may leave
  `undefined`.
- `style.dfy` (module `Style`): the colour thresholds and palette, `MarkerSize`,
  `MarkerColor`, the feature datatypes and `StyleInfo`.
- `legend.dfy` (module `Legend`): the grades, JavaScript truthiness and number-to-string
  conversion, the legend entries, their markup, and the `OnAdd` loop.
- `info.dfy` (module `Info`): class `InfoControl`, whose field `div` is the panel's
  markup, or `None` before `onAdd` has created the panel.

Magnitudes and depths are `real`. Colours are the source's hex strings. The palette is
indexed from the shallowest bucket up, so bucket k is also legend entry k.

`MarkerColor` has an independent reference definition. `Bucket(depth)` is the number of
thresholds that the depth strictly exceeds. `MarkerColor`'s contract says that the nested
conditional of the source returns `Palette[Bucket(depth)]`. The lemmas then describe each
bucket as a half-open interval `(t_{k-1}, t_k]`.

The legend is specified by `Entries()`, one `Entry(swatch, lower, upper)` per grade, and by
`LegendHtml()`, the markup those entries render to. `Legend.OnAdd` builds the markup the way
the source does, one `+=` per grade. Its contract is that the result equals `LegendHtml()`.
The method takes no input, so two calls always give the same legend, whatever data was
fetched.

A GeoJSON position (section 3.1.1 of RFC 7946) may have only two elements. In that case
`feature.geometry.coordinates[2]` is `undefined`. Every `undefined > t` comparison is
false, so `markerColor` falls through to its last colour, `#1a9850`. `Style.Depth` returns
an `Option` for this reason, and `StyleInfo` follows the same fall-through.

The source writes the legend's test `grades[i + 1] ? … : '+'` as a truthiness test.
`Legend.Truthy` models it as JavaScript does: `undefined` and `0` are falsy.
`NextGradeTruthyIffNotLast` proves that, at every index the loop visits, the test means
"this is not the last grade".

The colour thresholds appear twice in the source: as literals inside `markerColor`, and
again as the legend's `grades` array. `Legend.GradesShareThresholds` proves that the two
lists agree.

The first legend entry is labelled `0–2`, but `markerColor` gives the same colour to every
depth up to 2 km, including zero and negative depths. `LegendMatchesMarkers` therefore
states the converse direction only for positive depths.

## Model

| member | source | states |
|---|---|---|
| `Style.MarkerColor` | Starter_Code/static/Leaflet-Part-1/js/logic.js:56-64 | the threshold chain returns the colour of the reference bucket: the palette entry indexed by how many thresholds the depth strictly exceeds |
| `Style.BucketIsInterval` | Starter_Code/static/Leaflet-Part-1/js/logic.js:57-64 | a depth's bucket is k exactly when the depth lies in the half-open interval (t_{k-1}, t_k]; there are eight buckets |
| `Style.MarkerColorPartition` | Starter_Code/static/Leaflet-Part-1/js/logic.js:57-64 | `markerColor(d)` is colour k if and only if d lies in bucket k, so the depth-to-colour map partitions the reals into eight intervals with distinct colours |
| `Style.BoundaryRule` | Starter_Code/static/Leaflet-Part-1/js/logic.js:57-63 | a depth equal to a threshold gets the colour of the bucket below it; depths up to 1 km above the threshold get the threshold's own colour (strict `>`) |
| `Style.ShallowDepthsAreGreen` | Starter_Code/static/Leaflet-Part-1/js/logic.js:63-64 | every depth of at most 2 km, negative depths included, is coloured `#1a9850` |
| `Style.MarkerColorExamples` | Starter_Code/static/Leaflet-Part-1/js/logic.js:57-64 | depth 0 gives `#1a9850`, depth 3 gives `#66bd63`, depth 150 gives `#f46d43` and depth 151 gives `#d73027` |
| `Style.ThresholdsIncreasing` | Starter_Code/static/Leaflet-Part-1/js/logic.js:57-63 | the seven thresholds 2, 5, 10, 25, 50, 100, 150 are strictly ordered |
| `Style.PaletteDistinct` | Starter_Code/static/Leaflet-Part-1/js/logic.js:57-64 | there are exactly eight colours, one more than the thresholds, and they are pairwise distinct |
| `Style.CountExceededIsPosition` | Starter_Code/static/Leaflet-Part-1/js/logic.js:57-64 | for any strictly increasing threshold list, the number of thresholds a depth exceeds is k exactly when the depth lies between threshold k-1 (exclusive) and threshold k (inclusive) |
| `Style.MarkerSize` | Starter_Code/static/Leaflet-Part-1/js/logic.js:51-53 | definition: four times the magnitude; its properties are stated by `MarkerSizeLinear`, `MarkerSizeStrictlyIncreasing` and `MarkerSizeUnclamped` |
| `Style.MarkerSizeLinear` | Starter_Code/static/Leaflet-Part-1/js/logic.js:51-53 | the radius scales linearly with the magnitude: scaling or adding magnitudes scales or adds radii |
| `Style.MarkerSizeStrictlyIncreasing` | Starter_Code/static/Leaflet-Part-1/js/logic.js:51-53 | a larger magnitude gives a larger radius, and conversely |
| `Style.MarkerSizeUnclamped` | Starter_Code/static/Leaflet-Part-1/js/logic.js:51-53 | no clamping: the radius is zero or negative exactly when the magnitude is; magnitude 5 gives 20 and magnitude -1 gives -4 |
| `Style.Depth` | Starter_Code/static/Leaflet-Part-1/js/logic.js:72 | definition of `feature.geometry.coordinates[2]`, undefined for a two-element position; what a missing depth means for the fill colour is stated by `StyleInfo` |
| `Style.StyleInfo` | Starter_Code/static/Leaflet-Part-1/js/logic.js:69-78 | the fill colour is one of the eight colours and is colour k exactly when the feature's depth lies in bucket k (no depth means bucket 0); the radius is the marker size of the magnitude; stroke `black`, weight 1, opacity 1, fill opacity 0.7 |
| `Style.StyleRadiusOrdered` | Starter_Code/static/Leaflet-Part-1/js/logic.js:71 | of two features, the one with the larger magnitude gets the strictly larger circle, and conversely |
| `Legend.GradeAt` | Starter_Code/static/Leaflet-Part-1/js/logic.js:114 | definition of the JavaScript array read `grades[i]`, `undefined` outside the array; its meaning for the loop is stated by `NextGradeTruthyIffNotLast` and `EntryLayout` |
| `Legend.Truthy` | Starter_Code/static/Leaflet-Part-1/js/logic.js:114 | definition of JavaScript truthiness for a possibly undefined number (`undefined` and `0` are falsy); what it decides in the loop is stated by `OnlyFirstGradeFalsy` and `NextGradeTruthyIffNotLast` |
| `Legend.OnlyFirstGradeFalsy` | Starter_Code/static/Leaflet-Part-1/js/logic.js:106 | the only falsy grade is the 0 at index 0 |
| `Legend.NextGradeTruthyIffNotLast` | Starter_Code/static/Leaflet-Part-1/js/logic.js:114 | at every index the loop visits, `grades[i + 1]` is truthy exactly when i + 1 is still inside the array |
| `Legend.GradesShareThresholds` | Starter_Code/static/Leaflet-Part-1/js/logic.js:106 | the legend's grades are 0 followed by the seven colour thresholds of `markerColor`, in ascending order |
| `Legend.NumberToString` | Starter_Code/static/Leaflet-Part-1/js/logic.js:114 | a grade is printed as a non-empty string of decimal digits that starts with `0` only for the number 0 |
| `Legend.NumberToStringRoundTrip` | Starter_Code/static/Leaflet-Part-1/js/logic.js:114 | reading the printed digits back gives the grade itself |
| `Legend.EntryAt` | Starter_Code/static/Leaflet-Part-1/js/logic.js:112-114 | definition of what iteration i emits: swatch `markerColor(grades[i] + 1)`, lower grade `grades[i]`, and the next grade when it is truthy; stated by `EntryLayout`, `SwatchIsBucketColour` and `LegendMatchesMarkers` |
| `Legend.EntryHtml` | Starter_Code/static/Leaflet-Part-1/js/logic.js:112-114 | definition of the markup one iteration appends; `OnAdd` proves the loop appends exactly this for each grade |
| `Legend.EntriesUpTo` | Starter_Code/static/Leaflet-Part-1/js/logic.js:111-115 | after n iterations the loop has produced n entries, entry k being the one for grade k |
| `Legend.EntryLayout` | Starter_Code/static/Leaflet-Part-1/js/logic.js:113-114 | entry i starts at grade i; its label runs to grade i + 1, except the last entry's, which is open-ended (`+`) |
| `Legend.LegendLayout` | Starter_Code/static/Leaflet-Part-1/js/logic.js:106-115 | the legend has exactly eight entries in strictly ascending grade order, and the last one reads `150+` |
| `Legend.SwatchIsBucketColour` | Starter_Code/static/Leaflet-Part-1/js/logic.js:113 | the swatch of entry i, `markerColor(grades[i] + 1)`, is the colour of depth bucket i |
| `Legend.LegendMatchesMarkers` | Starter_Code/static/Leaflet-Part-1/js/logic.js:113-114 | every depth that an entry's label covers gets that entry's swatch colour from `markerColor`; for a positive depth the converse holds too |
| `Legend.SwatchesDistinct` | Starter_Code/static/Leaflet-Part-1/js/logic.js:113 | the eight swatches are pairwise distinct |
| `Legend.OnAdd` | Starter_Code/static/Leaflet-Part-1/js/logic.js:103-118 | the loop leaves the legend's markup equal to the header `Depth(km) <br>` followed by the markup of the eight entries in order |
| `Info.InfoControl.constructor` | Starter_Code/static/Leaflet-Part-1/js/logic.js:123 | a new control has no panel yet |
| `Info.InfoControl.Update` | Starter_Code/static/Leaflet-Part-1/js/logic.js:132-137 | with a panel, whatever properties it is passed, the panel afterwards holds the fixed explanatory text; without a panel, the assignment to `this._div.innerHTML` throws and nothing changes |
| `Info.InfoControl.OnAdd` | Starter_Code/static/Leaflet-Part-1/js/logic.js:125-129 | a fresh panel is created and filled by `update()`, which cannot throw there, and its markup, the fixed text, is returned |
| `Info.UpdateIsIdempotent` | Starter_Code/static/Leaflet-Part-1/js/logic.js:132-137 | once the panel holds the fixed text, another `update`, with any properties, leaves it unchanged |

## Left out

- Tile layers, base and overlay maps, map construction and the layer control
  (logic.js:3-39): these only configure Leaflet and contain no logic.
- The `d3.json` request, its promise callback and `console.log` (logic.js:42-48):
  network I/O and asynchronous plumbing.
- `L.geoJSON`, `pointToLayer` and adding markers to the earthquake layer
  (logic.js:80-98): Leaflet creates the markers, and its code is not part of this
  model. So the model does not state that there is one marker per feature.
- Popup text (logic.js:90-96): it depends on `new Date(...)` and `toLocaleString()`,
  which format according to the host's locale and time zone.
- `L.DomUtil.create` and attaching the legend and info controls to the map
  (logic.js:105, 120, 126, 139). The model gives the markup the code builds. It does
  not model the browser re-serialising `innerHTML` after each `+=`; for example, the
  browser turns `&ndash;` into the character U+2013.
- Style.MarkerSize: magnitudes and depths are reals, so the IEEE-754 rounding of
  `magnitude * 4` and of the depth comparisons is not modelled.
- Style.StyleInfo: a feature whose `mag` is `null` or missing is not modelled.
  In JavaScript that radius would be `0` or `NaN`. The magnitude is always a real here.
- Info.InfoControl.Update: the `props` argument is modelled as optional feature
  properties. The source never reads it, whatever its type.
