/** The boundary-overlay registry of the map component, as values: the
    specification that the component's methods are proved against.

    A `View` joins the component's registry (`boundaryObjects`, geocode to
    boundary object) with what its map engine shows and the overlay calls made
    on it. When the component holds no map, only the registry is observable. */
module BoundaryRegistry {
  import opened Longdo

  datatype View = View(
    hasMap: bool,
    registry: map<string, BoundaryObject>,
    loaded: set<BoundaryObject>,
    calls: seq<OverlayCall>)

  /** The loaded boundary objects that were built for geocode `g`. */
  function LoadedFor(loaded: set<BoundaryObject>, g: string): set<BoundaryObject>
  {
    set o | o in loaded && o.geocode == g
  }

  /** The registry invariant: every entry is an object built for its own key
      (so at most one object per geocode), and while a map is present the
      loaded objects are exactly the registered ones. */
  predicate Inv(v: View)
  {
    Keyed(v.registry) && (v.hasMap ==> v.loaded == v.registry.Values)
  }

  /** Every registered object was built for the geocode it is registered under. */
  predicate Keyed(m: map<string, BoundaryObject>)
  {
    forall g :: g in m ==> m[g].geocode == g
  }

  /** What can be seen of the registry: the display options per geocode. */
  function Visible(v: View): map<string, Option<BoundaryObjectOptions>>
  {
    map g | g in v.registry :: v.registry[g].options
  }

  /** `loadBoundary(g, ...)`, with `obj` the boundary object it constructs:
      a no-op without a map; otherwise unload the object registered for `g`
      if there is one, register `obj` under `g` and load it. */
  function LoadStep(v: View, g: string, obj: BoundaryObject): (r: View)
    ensures !v.hasMap ==> r == v
    ensures v.hasMap ==> r.hasMap && g in r.registry && r.registry[g] == obj && obj in r.loaded
    ensures forall k :: k != g ==> (k in r.registry <==> k in v.registry)
    ensures forall k :: k != g && k in v.registry ==> r.registry[k] == v.registry[k]
    ensures v.hasMap && g in v.registry && v.registry[g] != obj ==> v.registry[g] !in r.loaded
    ensures v.hasMap ==> r.loaded - {obj} == v.loaded - {obj} - (if g in v.registry then {v.registry[g]} else {})
  {
    if !v.hasMap then v
    else
      var loaded := if g in v.registry then v.loaded - {v.registry[g]} else v.loaded;
      var calls := if g in v.registry then v.calls + [UnloadCall(v.registry[g])] else v.calls;
      View(true, v.registry[g := obj], loaded + {obj}, calls + [LoadCall(obj)])
  }

  /** `clearOverlays()`: the registry is emptied in every case; with a map the
      engine is cleared too, with one `clear` call. */
  function ClearStep(v: View): (r: View)
    ensures r.registry == map[] && r.hasMap == v.hasMap
    ensures v.hasMap ==> r.loaded == {} && r.calls == v.calls + [ClearCall]
    ensures !v.hasMap ==> r.loaded == v.loaded && r.calls == v.calls
    ensures Inv(r)
  {
    if v.hasMap then View(true, map[], {}, v.calls + [ClearCall]) else v.(registry := map[])
  }

  /** `loadBoundary(g, ...)` called once per object of `objs`, in order. */
  function LoadAll(v: View, g: string, objs: seq<BoundaryObject>): View
    decreases |objs|
  {
    if objs == [] then v else LoadStep(LoadAll(v, g, objs[..|objs| - 1]), g, objs[|objs| - 1])
  }

  function CountLoads(calls: seq<OverlayCall>): nat
  {
    if calls == [] then 0 else (if calls[0].LoadCall? then 1 else 0) + CountLoads(calls[1..])
  }

  function CountUnloads(calls: seq<OverlayCall>): nat
  {
    if calls == [] then 0 else (if calls[0].UnloadCall? then 1 else 0) + CountUnloads(calls[1..])
  }

  lemma {:induction false} CountAppend(a: seq<OverlayCall>, b: seq<OverlayCall>)
    ensures CountLoads(a + b) == CountLoads(a) + CountLoads(b)
    ensures CountUnloads(a + b) == CountUnloads(a) + CountUnloads(b)
  {
    if a == [] {
      assert a + b == b;
    } else {
      assert (a + b)[1..] == a[1..] + b;
      CountAppend(a[1..], b);
    }
  }

  /** A log made only of `load` calls counts one load per call and no unload. */
  lemma {:induction false} CountOnlyLoads(calls: seq<OverlayCall>)
    requires forall i :: 0 <= i < |calls| ==> calls[i].LoadCall?
    ensures CountLoads(calls) == |calls| && CountUnloads(calls) == 0
  {
    if calls != [] {
      CountOnlyLoads(calls[1..]);
    }
  }

  /** In a keyed registry, the registered objects built for `g` are the entry
      under `g`, if any. */
  lemma KeyedValuesFor(m: map<string, BoundaryObject>, g: string)
    requires Keyed(m)
    ensures LoadedFor(m.Values, g) == if g in m then {m[g]} else {}
  {
    forall o | o in m.Values && o.geocode == g ensures g in m && o == m[g] {
      var k :| k in m && m[k] == o;
    }
  }

  /** Registering `obj` under its own geocode keeps the registry keyed and
      swaps the object previously under `g` for `obj`. */
  lemma KeyedUpdate(m: map<string, BoundaryObject>, g: string, obj: BoundaryObject)
    requires Keyed(m) && obj.geocode == g
    ensures Keyed(m[g := obj])
    ensures m[g := obj].Values == (m.Values - (if g in m then {m[g]} else {})) + {obj}
  {
    var m' := m[g := obj];
    var was := if g in m then {m[g]} else {};
    forall o | o in m'.Values ensures o in (m.Values - was) + {obj} {
      var k :| k in m' && m'[k] == o;
      if k != g {
        assert m[k] == o && o.geocode == k;
      }
    }
    forall o | o in (m.Values - was) + {obj} ensures o in m'.Values {
      if o == obj {
        assert m'[g] == obj;
      } else {
        var k :| k in m && m[k] == o;
        assert k != g;
        assert m'[k] == o;
      }
    }
  }

  /** One `loadBoundary(g, ...)` keeps the invariant, and grows the registry
      only when `g` is a new key. */
  lemma LoadStepKeepsInv(v: View, g: string, obj: BoundaryObject)
    requires Inv(v) && obj.geocode == g
    ensures Inv(LoadStep(v, g, obj))
    ensures |LoadStep(v, g, obj).registry| == if g in v.registry || !v.hasMap then |v.registry| else |v.registry| + 1
  {
    if v.hasMap {
      var r := LoadStep(v, g, obj);
      assert r.registry == v.registry[g := obj];
      KeyedUpdate(v.registry, g, obj);
      if g in v.registry {
        assert r.registry.Keys == v.registry.Keys;
      } else {
        assert r.registry.Keys == v.registry.Keys + {g};
      }
    }
  }

  /** With a map, after one `loadBoundary(g, ...)` the new object is the only
      one loaded for `g`, and every other geocode's loaded objects are as before. */
  lemma LoadStepLoadedFor(v: View, g: string, obj: BoundaryObject)
    requires Inv(v) && v.hasMap && obj.geocode == g
    ensures LoadedFor(LoadStep(v, g, obj).loaded, g) == {obj}
    ensures forall k :: k != g ==> LoadedFor(LoadStep(v, g, obj).loaded, k) == LoadedFor(v.loaded, k)
  {
    var r := LoadStep(v, g, obj);
    assert r.registry == v.registry[g := obj];
    KeyedUpdate(v.registry, g, obj);
    assert r.loaded == r.registry.Values;
    KeyedValuesFor(r.registry, g);
    forall k | k != g ensures LoadedFor(r.loaded, k) == LoadedFor(v.loaded, k) {
      KeyedValuesFor(r.registry, k);
      KeyedValuesFor(v.registry, k);
    }
  }

  /** Repeated `loadBoundary(g, ...)` calls do not accumulate: afterwards `g`
      has one entry, the last object is the only one loaded for `g`, the
      registry grew at most by the one key and every other key is untouched. */
  lemma {:induction false} RepeatedLoads(v: View, g: string, objs: seq<BoundaryObject>)
    requires Inv(v) && v.hasMap && objs != []
    requires forall i :: 0 <= i < |objs| ==> objs[i].geocode == g
    decreases |objs|
    ensures Inv(LoadAll(v, g, objs)) && LoadAll(v, g, objs).hasMap
    ensures g in LoadAll(v, g, objs).registry && LoadAll(v, g, objs).registry[g] == objs[|objs| - 1]
    ensures LoadedFor(LoadAll(v, g, objs).loaded, g) == {objs[|objs| - 1]}
    ensures |LoadAll(v, g, objs).registry| == if g in v.registry then |v.registry| else |v.registry| + 1
    ensures forall k :: k != g ==> (k in LoadAll(v, g, objs).registry <==> k in v.registry)
    ensures forall k :: k != g && k in v.registry ==> LoadAll(v, g, objs).registry[k] == v.registry[k]
  {
    var p := LoadAll(v, g, objs[..|objs| - 1]);
    if |objs| > 1 {
      RepeatedLoads(v, g, objs[..|objs| - 1]);
    }
    LoadStepKeepsInv(p, g, objs[|objs| - 1]);
    LoadStepLoadedFor(p, g, objs[|objs| - 1]);
  }

  /** With a map, one `loadBoundary(g, ...)` appends to the log exactly one
      `load`, preceded by one `unload` of the previous object when `g` was
      registered, and no `unload` for a new key. */
  lemma LoadStepLog(v: View, g: string, obj: BoundaryObject)
    requires v.hasMap
    ensures g !in v.registry ==> LoadStep(v, g, obj).calls == v.calls + [LoadCall(obj)]
    ensures g in v.registry ==> LoadStep(v, g, obj).calls == v.calls + [UnloadCall(v.registry[g]), LoadCall(obj)]
    ensures |v.calls| < |LoadStep(v, g, obj).calls| && LoadStep(v, g, obj).calls[..|v.calls|] == v.calls
    ensures CountLoads(LoadStep(v, g, obj).calls[|v.calls|..]) == 1
    ensures CountUnloads(LoadStep(v, g, obj).calls[|v.calls|..]) == if g in v.registry then 1 else 0
  {
    var added := LoadStep(v, g, obj).calls[|v.calls|..];
    if g in v.registry {
      assert added == [UnloadCall(v.registry[g]), LoadCall(obj)];
      assert added[1..] == [LoadCall(obj)] && added[1..][1..] == [];
      assert CountLoads(added[1..]) == 1 && CountUnloads(added[1..]) == 0;
    } else {
      assert added == [LoadCall(obj)] && added[1..] == [];
    }
  }

  /** The same, counted over the whole log: one more `load`, and one more
      `unload` exactly when `g` was registered. */
  lemma LoadStepCounts(v: View, g: string, obj: BoundaryObject)
    requires v.hasMap
    ensures CountLoads(LoadStep(v, g, obj).calls) == CountLoads(v.calls) + 1
    ensures CountUnloads(LoadStep(v, g, obj).calls) == CountUnloads(v.calls) + |v.registry.Keys * {g}|
  {
    var calls := LoadStep(v, g, obj).calls;
    LoadStepLog(v, g, obj);
    assert calls == v.calls + calls[|v.calls|..];
    CountAppend(v.calls, calls[|v.calls|..]);
    assert v.registry.Keys * {g} == if g in v.registry then {g} else {};
  }

  /** The overlay calls of repeated `loadBoundary(g, ...)` calls extend the log
      with one `load` per call and one `unload` per call that found `g`
      registered: all of them, or all but the first on a new key. */
  lemma {:induction false} RepeatedLoadsCalls(v: View, g: string, objs: seq<BoundaryObject>)
    requires v.hasMap && objs != []
    decreases |objs|
    ensures LoadAll(v, g, objs).hasMap && g in LoadAll(v, g, objs).registry
    ensures |v.calls| <= |LoadAll(v, g, objs).calls|
    ensures LoadAll(v, g, objs).calls[..|v.calls|] == v.calls
    ensures CountLoads(LoadAll(v, g, objs).calls[|v.calls|..]) == |objs|
    ensures CountUnloads(LoadAll(v, g, objs).calls[|v.calls|..]) == if g in v.registry then |objs| else |objs| - 1
  {
    var prefix := objs[..|objs| - 1];
    var p := LoadAll(v, g, prefix);
    var r := LoadStep(p, g, objs[|objs| - 1]);
    assert LoadAll(v, g, objs) == r;
    if |objs| == 1 {
      LoadStepLog(v, g, objs[0]);
    } else {
      RepeatedLoadsCalls(v, g, prefix);
      LoadStepLog(p, g, objs[|objs| - 1]);
      var before := p.calls[|v.calls|..];
      var added := r.calls[|p.calls|..];
      assert r.calls == p.calls + added;
      assert r.calls[|v.calls|..] == before + added;
      CountAppend(before, added);
    }
  }

  /** With a map, `loadBoundary(g, ...)` changes what is visible only at `g`,
      which now shows the new object's options. */
  lemma VisibleAfterLoad(v: View, g: string, obj: BoundaryObject)
    requires v.hasMap
    ensures Visible(LoadStep(v, g, obj)) == Visible(v)[g := obj.options]
  {
    var r := LoadStep(v, g, obj);
    assert r.registry == v.registry[g := obj];
    assert Visible(r).Keys == Visible(v)[g := obj.options].Keys;
  }

  /** Reloading a registered geocode with the options it already shows
      changes nothing visible and leaves one object loaded for it. */
  lemma ReloadSameOptions(v: View, g: string, obj: BoundaryObject)
    requires Inv(v) && v.hasMap && obj.geocode == g
    requires g in v.registry && v.registry[g].options == obj.options
    ensures Visible(LoadStep(v, g, obj)) == Visible(v)
    ensures |LoadedFor(LoadStep(v, g, obj).loaded, g)| == 1
  {
    LoadStepLoadedFor(v, g, obj);
    VisibleAfterLoad(v, g, obj);
    var vis := Visible(v);
    assert vis[g := obj.options] == vis;
  }

  /** Loading the same geocode with the same options twice shows the same as
      loading it once, with a single object loaded for it. */
  lemma LoadTwiceIdempotent(v: View, g: string, o1: BoundaryObject, o2: BoundaryObject)
    requires Inv(v) && o1.geocode == g && o2.geocode == g && o1.options == o2.options
    ensures Visible(LoadStep(LoadStep(v, g, o1), g, o2)) == Visible(LoadStep(v, g, o1))
    ensures v.hasMap ==> |LoadedFor(LoadStep(LoadStep(v, g, o1), g, o2).loaded, g)| == 1
  {
    if v.hasMap {
      LoadStepKeepsInv(v, g, o1);
      ReloadSameOptions(LoadStep(v, g, o1), g, o2);
    }
  }

  /** Two loads of one compound geocode on an empty registry, the second with
      a green fill: one unload, two loads, one entry, carrying the green fill. */
  lemma ReloadCompoundGeocode(o1: BoundaryObject, o2: BoundaryObject)
    requires o1.geocode == "610604;610607" && o2.geocode == "610604;610607"
    requires o1.options == Some(BoundaryObjectOptions()) && o2.options == Some(BoundaryObjectOptions(fillColor := Some(Some("#00ff00"))))
    ensures var r := LoadAll(View(true, map[], {}, []), "610604;610607", [o1, o2]);
      && CountUnloads(r.calls) == 1 && CountLoads(r.calls) == 2
      && |r.registry| == 1 && "610604;610607" in r.registry
      && r.registry["610604;610607"].options == Some(BoundaryObjectOptions(fillColor := Some(Some("#00ff00"))))
  {
    var v := View(true, map[], {}, []);
    RepeatedLoads(v, "610604;610607", [o1, o2]);
    RepeatedLoadsCalls(v, "610604;610607", [o1, o2]);
    var r := LoadAll(v, "610604;610607", [o1, o2]);
    assert r.calls[|v.calls|..] == r.calls;
  }
}
