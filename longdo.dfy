/** The part of the Longdo Map JavaScript API that the map component relies on
    (longdo.d.ts). The engine itself is foreign code: only what its declarations
    promise about boundary objects is modelled. Its rendered view is abstracted
    as the ghost set of loaded boundary objects, and every overlay call is
    recorded in a ghost log so that callers can state which calls they made. */
module Longdo {

  datatype Option<+T> = None | Some(value: T)

  datatype LatLon = LatLon(lon: real, lat: real)

  datatype ZoomRange = ZoomRange(min: real, max: real)

  /** The map configuration. The DOM placeholder and the `layer` and `ui`
      entries are not modelled; the component always passes the other four. */
  datatype MapOptions = MapOptions(zoom: real, zoomRange: ZoomRange, location: LatLon, lastView: bool)

  /** Display options of a boundary object; every entry is optional.
      `fillColor` is absent, explicitly `null` (no fill) or a colour. */
  datatype BoundaryObjectOptions = BoundaryObjectOptions(
    combine: Option<bool> := None,
    simplify: Option<real> := None,
    ignorefragment: Option<bool> := None,
    title: Option<string> := None,
    labelText: Option<string> := None,  // `label` (a Dafny keyword)
    lineColor: Option<string> := None,
    fillColor: Option<Option<string>> := None)

  /** The only object type the constructor accepts: the geocode layer `'IG'`. */
  datatype ObjectType = IG

  /** `longdo.Overlays.Object`: an opaque token remembering what it was built from.
      Every construction yields a new object. */
  class BoundaryObject {
    const geocode: string
    const kind: ObjectType
    const options: Option<BoundaryObjectOptions>

    constructor (geocode: string, kind: ObjectType, options: Option<BoundaryObjectOptions>)
      ensures this.geocode == geocode && this.kind == kind && this.options == options
    {
      this.geocode := geocode;
      this.kind := kind;
      this.options := options;
    }
  }

  /** One call made on `Map.Overlays`. */
  datatype OverlayCall = LoadCall(overlay: BoundaryObject) | UnloadCall(overlay: BoundaryObject) | ClearCall

  /** `longdo.Map`, reduced to the boundary-object part of its `Overlays` API. */
  class Map {
    const options: MapOptions
    /** The boundary objects currently shown on the map. */
    ghost var loaded: set<BoundaryObject>
    /** Every `Overlays` call made on this map, oldest first. */
    ghost var calls: seq<OverlayCall>

    constructor (options: MapOptions)
      ensures this.options == options && loaded == {} && calls == []
    {
      this.options := options;
      loaded := {};
      calls := [];
    }

    /** `Overlays.load`: shows a boundary object. */
    method Load(overlay: BoundaryObject)
      modifies this
      ensures loaded == old(loaded) + {overlay}
      ensures calls == old(calls) + [LoadCall(overlay)]
    {
      loaded := loaded + {overlay};
      calls := calls + [LoadCall(overlay)];
    }

    /** `Overlays.unload`: the counterpart of `Load`, hides a boundary object. */
    method Unload(overlay: BoundaryObject)
      modifies this
      ensures loaded == old(loaded) - {overlay}
      ensures calls == old(calls) + [UnloadCall(overlay)]
    {
      loaded := loaded - {overlay};
      calls := calls + [UnloadCall(overlay)];
    }

    /** `Overlays.clear`: removes every overlay from the map. */
    method Clear()
      modifies this
      ensures loaded == {}
      ensures calls == old(calls) + [ClearCall]
    {
      loaded := {};
      calls := calls + [ClearCall];
    }
  }
}
