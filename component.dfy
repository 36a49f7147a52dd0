/** `LongdoMapComponent` (longdo-map.ts): holds the map handle and the registry
    of boundary objects keyed by geocode, and keeps the two in step.

    Angular's rendering plumbing is reduced to what the component decides:
    the platform check is the constant `isBrowser`, the signal inputs are
    constant fields with their declared defaults, and the one-shot
    `afterNextRender` callback is the method `AfterNextRender`. */
module MapComponent {
  import opened Longdo
  import opened BoundaryRegistry

  datatype DistrictColor = DistrictColor(geocode: string, fillColor: string)

  /** The fixed seed list loaded when the map is created. */
  const DistrictColors: seq<DistrictColor> := [DistrictColor("94__", "#ff0000")]

  /** The style every seed object is built with, for its own fill colour. */
  function SeedStyle(fillColor: string): BoundaryObjectOptions
  {
    BoundaryObjectOptions(simplify := Some(0.0005), combine := Some(true), lineColor := Some("#ff0000"), fillColor := Some(Some(fillColor)))
  }

  function SeedGeocodes(): set<string>
  {
    set i | 0 <= i < |DistrictColors| :: DistrictColors[i].geocode
  }

  /** JavaScript truthiness of the `boundaryGeocodes` input: neither `null`
      nor the empty string. */
  predicate Truthy(geocodes: Option<string>)
  {
    geocodes.Some? && geocodes.value != ""
  }

  /** The seed loop never unloads, so it keeps every loaded object registered
      only because no two seed entries share a geocode: one key per entry. */
  lemma SeedGeocodesDistinct()
    ensures forall i, j :: 0 <= i < |DistrictColors| && 0 <= j < |DistrictColors| && DistrictColors[i].geocode == DistrictColors[j].geocode ==> i == j
    ensures |SeedGeocodes()| == |DistrictColors| == 1
    ensures SeedGeocodes() == {"94__"}
  {
    assert SeedGeocodes() == {"94__"} by {
      assert DistrictColors[0].geocode == "94__";
    }
  }

  /** The registry keys the startup load adds: the whole input string as one key. */
  function StartupKeys(geocodes: Option<string>): set<string>
  {
    if Truthy(geocodes) then {geocodes.value} else {}
  }

  /** The startup `loadBoundary` after the seed loop: it adds its one key,
      replaces nothing but that key, and adds one load, plus one unload
      exactly when the key is also a seed geocode. */
  lemma StartupLoad(seeded: View, g: string, obj: BoundaryObject)
    requires seeded.hasMap && seeded.registry.Keys == SeedGeocodes()
    requires CountLoads(seeded.calls) == |DistrictColors| && CountUnloads(seeded.calls) == 0
    ensures LoadStep(seeded, g, obj).registry.Keys == SeedGeocodes() + {g}
    ensures forall k :: k in seeded.registry && k != g ==> LoadStep(seeded, g, obj).registry[k] == seeded.registry[k]
    ensures CountLoads(LoadStep(seeded, g, obj).calls) == |DistrictColors| + 1
    ensures CountUnloads(LoadStep(seeded, g, obj).calls) == |SeedGeocodes() * {g}|
  {
    LoadStepCounts(seeded, g, obj);
    assert LoadStep(seeded, g, obj).registry.Keys == seeded.registry.Keys + {g};
  }

  /** Where the component is in its Angular life cycle. */
  datatype Phase = Created | Rendered | Destroyed

  class LongdoMapComponent {
    const zoom: real
    const zoomRange: ZoomRange
    const location: LatLon
    const boundaryGeocodes: Option<string>
    const boundaryOptions: BoundaryObjectOptions
    /** `isPlatformBrowser(platformId)`. */
    const isBrowser: bool

    /** `map` (a Dafny keyword): the engine handle, `null` until created. */
    var mapHandle: Map?
    var boundaryObjects: map<string, BoundaryObject>
    ghost var phase: Phase

    /** The registry, the map's loaded objects and its overlay log, as one value. */
    ghost function View(): View
      reads this, mapHandle
    {
      if mapHandle == null then BoundaryRegistry.View(false, boundaryObjects, {}, [])
      else BoundaryRegistry.View(true, boundaryObjects, mapHandle.loaded, mapHandle.calls)
    }

    /** Before the first render there is no map and nothing registered; after
        teardown there is no map; otherwise the registry invariant holds. */
    ghost predicate Valid()
      reads this, mapHandle
    {
      && (phase == Created ==> mapHandle == null && boundaryObjects == map[])
      && (phase == Destroyed ==> mapHandle == null)
      && Inv(View())
    }

    constructor (zoom: real := 9.9, zoomRange: ZoomRange := ZoomRange(9.9, 10.9),
                 location: LatLon := LatLon(101.321070, 6.750956),
                 boundaryGeocodes: Option<string> := None,
                 boundaryOptions: BoundaryObjectOptions := BoundaryObjectOptions(),
                 isBrowser: bool := true)
      ensures Valid() && phase == Created
      ensures this.zoom == zoom && this.zoomRange == zoomRange && this.location == location
      ensures this.boundaryGeocodes == boundaryGeocodes && this.boundaryOptions == boundaryOptions
      ensures this.isBrowser == isBrowser
    {
      this.zoom := zoom;
      this.zoomRange := zoomRange;
      this.location := location;
      this.boundaryGeocodes := boundaryGeocodes;
      this.boundaryOptions := boundaryOptions;
      this.isBrowser := isBrowser;
      mapHandle := null;
      boundaryObjects := map[];
      phase := Created;
    }

    /** The callback registered with `afterNextRender` in the constructor; the
        framework runs it once, after the first render. In a browser it
        creates the map and the seed overlays and then loads the
        `boundaryGeocodes` input, if set and non-empty, as one geocode. */
    method AfterNextRender()
      requires Valid() && phase == Created
      modifies this
      ensures Valid() && phase == Rendered
      ensures !isBrowser ==> mapHandle == null && boundaryObjects == map[]
      ensures isBrowser ==> mapHandle != null && fresh(mapHandle) && mapHandle.options == MapOptions(zoom, zoomRange, location, false)
      ensures isBrowser ==> boundaryObjects.Keys == SeedGeocodes() + StartupKeys(boundaryGeocodes)
      ensures isBrowser ==> forall g :: g in boundaryObjects ==> fresh(boundaryObjects[g])
      ensures isBrowser && Truthy(boundaryGeocodes) ==>
                boundaryObjects[boundaryGeocodes.value].options == Some(boundaryOptions)
      ensures isBrowser ==> forall i :: 0 <= i < |DistrictColors| && DistrictColors[i].geocode !in StartupKeys(boundaryGeocodes) ==>
                boundaryObjects[DistrictColors[i].geocode].options == Some(SeedStyle(DistrictColors[i].fillColor))
      ensures isBrowser ==> CountLoads(mapHandle.calls) == |DistrictColors| + |StartupKeys(boundaryGeocodes)|
      ensures isBrowser ==> CountUnloads(mapHandle.calls) == |SeedGeocodes() * StartupKeys(boundaryGeocodes)|
    {
      phase := Rendered;
      if isBrowser {
        InitMap();
        CountOnlyLoads(mapHandle.calls);
        var geocodes := boundaryGeocodes;
        if geocodes.Some? && geocodes.value != "" {
          var g := geocodes.value;
          ghost var seeded := View();
          LoadBoundary(g, Some(boundaryOptions));
          StartupLoad(seeded, g, boundaryObjects[g]);
          assert StartupKeys(geocodes) == {g};
          forall k | k in boundaryObjects
            ensures fresh(boundaryObjects[k])
          {
            if k != g {
              assert boundaryObjects[k] == seeded.registry[k];
            }
          }
        } else {
          assert StartupKeys(geocodes) == {};
        }
      }
    }

    /** `initMap`: creates the map from the inputs (never restoring the last
        view), then builds, registers and loads one object per seed entry, in
        order. The registry is empty when it runs. */
    method InitMap()
      requires Valid() && phase == Rendered && boundaryObjects == map[]
      modifies this
      ensures Valid() && phase == Rendered
      ensures mapHandle != null && fresh(mapHandle) && mapHandle.options == MapOptions(zoom, zoomRange, location, false)
      ensures boundaryObjects.Keys == SeedGeocodes()
      ensures forall g :: g in boundaryObjects ==> fresh(boundaryObjects[g])
      ensures forall i :: 0 <= i < |DistrictColors| ==>
                fresh(boundaryObjects[DistrictColors[i].geocode])
                && boundaryObjects[DistrictColors[i].geocode].options == Some(SeedStyle(DistrictColors[i].fillColor))
      ensures |mapHandle.calls| == |DistrictColors|
      ensures forall i :: 0 <= i < |DistrictColors| ==> mapHandle.calls[i] == LoadCall(boundaryObjects[DistrictColors[i].geocode])
      ensures boundaryObjects.Keys == {"94__"} && mapHandle.calls == [LoadCall(boundaryObjects["94__"])]
      ensures boundaryObjects["94__"].options == Some(BoundaryObjectOptions(
                simplify := Some(0.0005), combine := Some(true), lineColor := Some("#ff0000"), fillColor := Some(Some("#ff0000"))))
    {
      var m := new Map(MapOptions(zoom, zoomRange, location, false));
      mapHandle := m;
      for i := 0 to |DistrictColors|
        invariant mapHandle == m && fresh(m) && m.options == MapOptions(zoom, zoomRange, location, false)
        invariant phase == Rendered
        invariant boundaryObjects.Keys == set j | 0 <= j < i :: DistrictColors[j].geocode
        invariant forall j :: 0 <= j < i ==>
                    fresh(boundaryObjects[DistrictColors[j].geocode])
                    && boundaryObjects[DistrictColors[j].geocode].options == Some(SeedStyle(DistrictColors[j].fillColor))
        invariant Keyed(boundaryObjects) && m.loaded == boundaryObjects.Values
        invariant forall g :: g in boundaryObjects ==> fresh(boundaryObjects[g])
        invariant |m.calls| == i
        invariant forall j :: 0 <= j < i ==> m.calls[j] == LoadCall(boundaryObjects[DistrictColors[j].geocode])
      {
        var district := DistrictColors[i];
        // one key per seed entry, so the new object replaces nothing
        assert district.geocode !in boundaryObjects by {
          SeedGeocodesDistinct();
        }
        var obj := new BoundaryObject(district.geocode, IG, Some(SeedStyle(district.fillColor)));
        KeyedUpdate(boundaryObjects, district.geocode, obj);
        boundaryObjects := boundaryObjects[district.geocode := obj];
        m.Load(obj);
      }
      assert DistrictColors[0].geocode == "94__";
      assert SeedGeocodes() == {"94__"};
    }

    /** `loadBoundary(geocode, options)`: without a map nothing happens;
        otherwise the object registered for `geocode` is unloaded, a new one is
        built from (`geocode`, `'IG'`, `options`), registered and loaded. */
    method LoadBoundary(geocode: string, options: Option<BoundaryObjectOptions> := None)
      requires Valid()
      modifies this, mapHandle
      ensures Valid() && mapHandle == old(mapHandle) && phase == old(phase)
      ensures old(mapHandle) == null ==> boundaryObjects == old(boundaryObjects)
      ensures old(mapHandle) != null ==>
                && geocode in boundaryObjects && fresh(boundaryObjects[geocode])
                && boundaryObjects[geocode].geocode == geocode && boundaryObjects[geocode].kind == IG
                && boundaryObjects[geocode].options == options
                && View() == LoadStep(old(View()), geocode, boundaryObjects[geocode])
    {
      if mapHandle == null {
        return;
      }
      ghost var before := View();
      var existing := if geocode in boundaryObjects then Some(boundaryObjects[geocode]) else None;
      if existing.Some? {
        mapHandle.Unload(existing.value);
      }
      var obj := new BoundaryObject(geocode, IG, options);
      boundaryObjects := boundaryObjects[geocode := obj];
      mapHandle.Load(obj);
      ghost var after := LoadStep(before, geocode, obj);
      assert boundaryObjects == after.registry;
      assert mapHandle.loaded == after.loaded && mapHandle.calls == after.calls;
      assert View() == after;
      LoadStepKeepsInv(before, geocode, obj);
    }

    /** `clearOverlays()`: the registry is always emptied; a present map is
        cleared as well. The map handle itself is kept. */
    method ClearOverlays()
      requires Valid()
      modifies this, mapHandle
      ensures Valid() && mapHandle == old(mapHandle) && phase == old(phase)
      ensures View() == ClearStep(old(View()))
    {
      boundaryObjects := map[];
      if mapHandle != null {
        mapHandle.Clear();
      }
    }

    /** `getMap()`: the current map handle; a present handle shows exactly the
        registered objects, and there is none before the first render or after
        teardown. */
    function GetMap(): (m: Map?)
      reads this, mapHandle
      requires Valid()
      ensures m == mapHandle
      ensures m != null ==> m.loaded == boundaryObjects.Values
      ensures phase != Rendered ==> m == null
    {
      mapHandle
    }

    /** `ngOnDestroy()`: drops the map handle and nothing else. */
    method NgOnDestroy()
      requires Valid()
      modifies this
      ensures Valid() && phase == Destroyed
      ensures mapHandle == null && boundaryObjects == old(boundaryObjects)
    {
      mapHandle := null;
      phase := Destroyed;
    }
  }
}
