# Longdo map component: boundary-overlay registry

This project models `LongdoMapComponent`, an Angular component that wraps a
Longdo Map. The component has two pieces of state. `map` is the handle to the
map engine, `null` until the map is created and again after teardown.
`boundaryObjects` is a registry from geocode to the boundary object
(`longdo.Overlays.Object`) currently shown for that geocode. The model proves
that the component keeps the registry and the engine in step:

- at most one boundary object per geocode;
- while a map is present, the loaded objects are exactly the registered ones;
- reloading a geocode unloads the old object before loading the new one;
- clearing empties the registry;
- `loadBoundary` does nothing without a map.

Files:

- `longdo.dfy` (module `Longdo`) holds the engine API from `longdo.d.ts`,
  reduced to what the component uses. Boundary objects are a class with
  constant fields, so every construction gives a new object. `Map` keeps its
  shown objects as a ghost set `loaded` and records every `Overlays` call in a
  ghost log `calls`. `load` adds an object to that set, `unload` (its
  counterpart) removes one, and `clear` empties it.
- `registry.dfy` (module `BoundaryRegistry`) is the specification as values.
  A `View` combines the registry, the engine's loaded set and its call log.
  It defines the invariant `Inv`, the transitions `LoadStep` and `ClearStep`,
  and repeated loading `LoadAll`, with the lemmas about them.
- `component.dfy` (module `MapComponent`) holds the class
  `LongdoMapComponent`. It has the real fields `mapHandle` (the source's `map`,
  a Dafny keyword) and `boundaryObjects`, and a ghost life-cycle `phase`. Each
  method's postcondition ties the new `View()` to `LoadStep` or `ClearStep` of
  the old one, or states the new state outright.

Angular plumbing becomes plain Dafny:

- Signal inputs become constant fields with their declared defaults.
- The platform check becomes the constant `isBrowser`.
- The one-shot `afterNextRender` callback becomes the method
  `AfterNextRender`. It requires the `Created` phase, because the framework
  runs it once, after the first render.

`clearOverlays` empties the registry even when there is no map
(longdo-map.ts:124-125). It also empties the registry before it clears the
engine. Nothing happens between the two steps, so the order is not observable.

The seed loop in `initMap` (longdo-map.ts:93-102) never unloads. It keeps the
loaded objects equal to the registered ones only because the seed geocodes
are distinct. A seed list that repeated a geocode would leave an unregistered
object loaded on the map.

## Model

| member | source | states |
|---|---|---|
| Longdo.BoundaryObject.constructor | longdo.d.ts:31-35 | a new boundary object remembers the geocode, the `'IG'` type and the options it was built from |
| Longdo.Map.constructor | longdo.d.ts:38-39 | a new map keeps its options and shows no boundary object yet, with an empty call log |
| Longdo.Map.Load | longdo.d.ts:50-51 | `load` adds the object to the shown set and logs one load call |
| Longdo.Map.Unload | longdo.d.ts:52-53 | `unload`, the counterpart of `load`, removes the object from the shown set and logs one unload call |
| Longdo.Map.Clear | longdo.d.ts:54 | `clear` leaves nothing shown and logs one clear call |
| BoundaryRegistry.LoadStep | longdo-map.ts:111-120 | without a map, the view is unchanged. With a map: `g` maps to the new object, which is loaded; other keys keep their entries; the old object for `g` is no longer loaded; nothing else loaded changes |
| BoundaryRegistry.ClearStep | longdo-map.ts:123-126 | the registry is empty whether or not there is a map; with a map nothing stays loaded and one clear call is logged; without a map the engine side is untouched; the invariant holds afterwards |
| BoundaryRegistry.KeyedUpdate | longdo-map.ts:117-118 | registering an object under its own geocode keeps every entry keyed by its object's geocode and swaps exactly the previous object for the new one among the registered objects |
| BoundaryRegistry.KeyedValuesFor | longdo-map.ts:54 | in a keyed registry the registered objects built for `g` are the entry for `g`, or none: at most one object per geocode |
| BoundaryRegistry.LoadStepKeepsInv | longdo-map.ts:111-120 | `loadBoundary` keeps the invariant, and the registry grows by one only for a new key |
| BoundaryRegistry.LoadStepLoadedFor | longdo-map.ts:111-120 | with a map, after `loadBoundary` the new object is the only one loaded for `g`, and the loaded objects of every other geocode are unchanged |
| BoundaryRegistry.LoadStepLog | longdo-map.ts:113-119 | with a map, one `loadBoundary` only appends to the log: one load, plus one unload exactly when `g` was registered |
| BoundaryRegistry.LoadStepCounts | longdo-map.ts:113-119 | the same, counted over the whole log: one more load, and one more unload exactly when `g` was already a key |
| BoundaryRegistry.RepeatedLoads | longdo-map.ts:111-120 | any number of loads of one geocode keeps the invariant and leaves one entry for it, holding the last object. That object is the only one loaded for the geocode. The registry grows by at most that key, and other keys are untouched |
| BoundaryRegistry.RepeatedLoadsCalls | longdo-map.ts:113-119 | n loads of one geocode extend the log with exactly n loads, and with n unloads, or n-1 when the key was new |
| BoundaryRegistry.VisibleAfterLoad | longdo-map.ts:117-118 | with a map, the options shown per geocode after `loadBoundary` are the old ones with `g` now showing the new object's options |
| BoundaryRegistry.ReloadSameOptions | longdo-map.ts:111-120 | reloading a registered geocode with the options it already shows changes no geocode's shown options and leaves exactly one object loaded for it |
| BoundaryRegistry.LoadTwiceIdempotent | longdo-map.ts:111-120 | loading a geocode twice with the same options shows the same options per geocode as loading it once, with one object loaded for it |
| BoundaryRegistry.ReloadCompoundGeocode | longdo-map.ts:105-120 | on an empty registry, loading `'610604;610607'` and then reloading it with a green fill makes one unload and two loads, leaves one entry, and that entry has the green fill |
| MapComponent.SeedGeocodesDistinct | longdo-map.ts:79-91 | the seed list `districtColors` has one entry per geocode, so the seed loop's registry gets one key per entry, and there is exactly one: `'94__'` |
| MapComponent.StartupLoad | longdo-map.ts:60-63 | after the seed loads, the startup `loadBoundary` makes the keys the seeds plus the input geocode, keeps the other seeds' entries, adds one load, and its only unload happens when the input geocode is itself a seed |
| MapComponent.LongdoMapComponent.constructor | longdo-map.ts:43-66 | inputs take their declared defaults; there is no map and the registry is empty |
| MapComponent.LongdoMapComponent.AfterNextRender | longdo-map.ts:56-66 | outside a browser nothing is created. In a browser a fresh map is created from the inputs. The registry keys are then the seed geocodes plus the `boundaryGeocodes` input as one whole key, when it passes `Truthy`: neither `null` nor `""`. That key has the input options, and other seeds keep the seed style. Every seed and startup load is counted, with one unload exactly when the startup key is also a seed |
| MapComponent.LongdoMapComponent.InitMap | longdo-map.ts:68-103 | a fresh map from zoom, zoom range and location with `lastView` false. Then one fresh object per seed, in order, with the options `SeedStyle` defines (simplify 0.0005, combine, red line, the seed's fill). The registry becomes exactly `{'94__'}` after a single load call |
| MapComponent.LongdoMapComponent.LoadBoundary | longdo-map.ts:111-120 | without a map the registry is unchanged and no engine object is touched. With a map, `geocode` maps to a fresh object built from (`geocode`, `'IG'`, `options`), and the new view is `LoadStep` of the old one. The map handle and the invariant are kept |
| MapComponent.LongdoMapComponent.ClearOverlays | longdo-map.ts:123-126 | the new view is `ClearStep` of the old one; the map handle is unchanged, so `GetMap` returns the same handle afterwards |
| MapComponent.LongdoMapComponent.GetMap | longdo-map.ts:128-130 | returns the current handle. A present handle shows exactly the registered objects, and there is no handle before the first render or after teardown |
| MapComponent.LongdoMapComponent.NgOnDestroy | longdo-map.ts:132-134 | drops the handle and keeps the registry. Every later `LoadBoundary` is then a no-op, since nothing leaves the `Destroyed` phase and that phase has no map |

## Left out

- The `@Component` decorator, template and styles (longdo-map.ts:19-41) and the `ariaLabel` input (longdo-map.ts:46) are presentation only.
- `inject(PLATFORM_ID)`/`isPlatformBrowser` become the constant `isBrowser`. The `viewChild` DOM container, the map's `placeholder` and `afterNextRender` scheduling are not modelled.
- The `layer` and `ui` map options are commented out in the source, so they are not modelled.
- Zoom, zoom range and location are reals that are only passed to the engine; the model does no arithmetic on them.
- The engine's rendering is foreign code. What the model assumes of it is only that `load`, `unload` and `clear` add to, remove from and empty the set of shown boundary objects.
- Non-boundary overlays are not modelled: `add`/`remove`, markers, `Layers`, `UiComponent`, `zoom`/`location`/`resize`. So the model does not capture that `clear` also removes them.
- Errors raised by the engine are not modelled: a failing map construction, or a geocode or options it rejects. The component does not catch them, and every modelled engine call succeeds.
- The `simplify` range comment (longdo.d.ts:20) is not checked, since the component never validates options.
- Geocode syntax, such as `'10__'` wildcards and `;` lists, is not parsed. A geocode is an opaque key.
- MapComponent.LongdoMapComponent.InitMap: its precondition asks for an empty registry. The source runs it once, from the first-render callback, when the registry is necessarily still empty. A second run with old entries would leave them unloaded on the new map.
- MapComponent.LongdoMapComponent.GetMap: the model assumes that no caller calls `load`, `unload` or `clear` on the returned handle. The source does not enforce this. A caller that did so would break the link between the registry and the objects shown.
