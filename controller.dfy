/**
 * `CulturalMap` as the component runs it: the selection, the marker and
 * popup dictionaries, the camera target, the registered click handlers,
 * the scheduled popup attachments and the outstanding pass cleanup are
 * fields, and every handler updates them in place, with the `forEach`
 * passes over the dictionaries written as loops.  Each method is proved to
 * leave the state the matching `Selection` function describes.
 */
module Controller {
  import opened Wrappers
  import opened Catalog
  import LikeCounter
  import Selection

  class CulturalMap {
    const sites: seq<Site>
    var mapReady: bool
    var active: Option<SiteId>
    var captured: Option<SiteId>
    var markers: map<SiteId, Selection.Marker>
    var popups: map<SiteId, Selection.Popup>
    var camera: Selection.Camera
    var listeners: set<nat>
    var nextHandler: nat
    var pending: seq<SiteId>
    var cleanup: Option<Selection.PassCleanup>

    /** The fields, as one value. */
    function Snapshot(): Selection.State
      reads this
    {
      Selection.State(mapReady, active, captured, markers, popups, camera, listeners, nextHandler, pending, cleanup)
    }

    /** The component's first render: no map yet, nothing selected. */
    constructor (sites: seq<Site>)
      ensures this.sites == sites
      ensures Snapshot() == Selection.Initial()
    {
      this.sites := sites;
      mapReady, active, captured := false, None, None;
      markers, popups := map[], map[];
      camera := Selection.Camera(Selection.DefaultCenter, Selection.DefaultZoom);
      listeners, nextHandler, pending, cleanup := {}, 0, [], None;
    }

    // -------------------------------------------------------------------------
    // The `forEach` passes

    /** `element.classList.remove("active")` for every marker. */
    method RemoveActiveClasses()
      modifies this`markers
      ensures markers == Selection.Deactivated(old(markers))
    {
      var rest := markers.Keys;
      ghost var before := markers;
      while rest != {}
        invariant rest <= before.Keys && markers.Keys == before.Keys
        invariant forall m :: m in markers ==> markers[m] == if m in rest then before[m] else before[m].(active := false)
        decreases rest
      {
        var m :| m in rest;
        markers := markers[m := markers[m].(active := false)];
        rest := rest - {m};
      }
    }

    /** `classList.add("active")` on marker `id`, `classList.remove("active")` on the others. */
    method MarkActive(id: SiteId)
      modifies this`markers
      ensures markers == Selection.Activated(old(markers), id)
    {
      var rest := markers.Keys;
      ghost var before := markers;
      while rest != {}
        invariant rest <= before.Keys && markers.Keys == before.Keys
        invariant forall m :: m in markers ==> markers[m] == if m in rest then before[m] else before[m].(active := (m == id))
        decreases rest
      {
        var m :| m in rest;
        markers := markers[m := markers[m].(active := (m == id))];
        rest := rest - {m};
      }
    }

    /** `marker.remove()` for every marker. */
    method RemoveAllMarkers()
      modifies this`markers
      ensures markers == Selection.MarkersRemoved(old(markers))
    {
      var rest := markers.Keys;
      ghost var before := markers;
      while rest != {}
        invariant rest <= before.Keys && markers.Keys == before.Keys
        invariant forall m :: m in markers ==> markers[m] == if m in rest then before[m] else before[m].(attached := false)
        decreases rest
      {
        var m :| m in rest;
        markers := markers[m := markers[m].(attached := false)];
        rest := rest - {m};
      }
    }

    /** `popup.remove()` for every popup. */
    method RemoveAllPopups()
      modifies this`popups
      ensures popups == Selection.PopupsRemoved(old(popups))
    {
      var rest := popups.Keys;
      ghost var before := popups;
      while rest != {}
        invariant rest <= before.Keys && popups.Keys == before.Keys
        invariant forall p :: p in popups ==> popups[p] == if p in rest then before[p] else before[p].(attached := false)
        decreases rest
      {
        var p :| p in rest;
        popups := popups[p := popups[p].(attached := false)];
        rest := rest - {p};
      }
    }

    // -------------------------------------------------------------------------
    // The selection effect

    /** The cleanup the last pass returned, if any: `map.off("click", handler)` and `popup.remove()`. */
    method RunCleanup()
      modifies this
      ensures Snapshot() == Selection.RunCleanup(old(Snapshot()))
    {
      if cleanup.Some? {
        var c := cleanup.value;
        listeners := listeners - {c.handler};
        if c.popup in popups {
          popups := popups[c.popup := popups[c.popup].(attached := false)];
        }
        cleanup := None;
      }
    }

    /** The pass with nothing selected: clear the classes, close the popups, recentre. */
    method ClearingPass()
      requires !mapReady || active.None? || active.value == ""
      modifies this
      ensures Snapshot() == old(Snapshot()).(markers := Selection.Deactivated(old(markers)),
                                             popups := Selection.PopupsRemoved(old(popups)),
                                             camera := if mapReady then Selection.Camera(Selection.DefaultCenter, Selection.DefaultZoom) else old(camera),
                                             cleanup := None)
    {
      RemoveActiveClasses();
      RemoveAllPopups();
      if mapReady {
        camera := Selection.Camera(Selection.DefaultCenter, Selection.DefaultZoom);
      }
      cleanup := None;
    }

    /**
     * The pass with `site` selected: mark its marker, fill its popup, schedule
     * the attachment, fly to it and register the map-click handler.
     */
    method SelectingPass(id: SiteId, site: Site)
      requires id in markers && id in popups
      modifies this
      ensures Snapshot() == old(Snapshot()).(markers := Selection.Activated(old(markers), id),
                                             popups := old(popups)[id := old(popups)[id].(content := Some(Selection.FreshContent(site)))],
                                             pending := old(pending) + [id],
                                             camera := Selection.Camera(Selection.SiteCenter(id), Selection.ActiveZoom),
                                             listeners := old(listeners) + {old(nextHandler)},
                                             nextHandler := old(nextHandler) + 1,
                                             cleanup := Some(Selection.PassCleanup(old(nextHandler), id)))
    {
      MarkActive(id);
      popups := popups[id := popups[id].(content := Some(Selection.FreshContent(site)))];
      pending := pending + [id];
      camera := Selection.Camera(Selection.SiteCenter(id), Selection.ActiveZoom);
      listeners := listeners + {nextHandler};
      cleanup := Some(Selection.PassCleanup(nextHandler, id));
      nextHandler := nextHandler + 1;
    }

    /** One run of the selection effect's body. */
    method Reconcile()
      modifies this
      ensures Snapshot() == Selection.Reconcile(old(Snapshot()), sites)
    {
      if !mapReady || active.None? || active.value == "" {
        ClearingPass();
        return;
      }
      var id := active.value;
      var site := Find(sites, id);
      if id !in markers || id !in popups || site.None? {
        cleanup := None;
        return;
      }
      SelectingPass(id, site.value);
    }

    /** `setActiveMarkerId(v)`: a change runs the last pass's cleanup, then a new pass. */
    method SetActiveMarkerId(v: Option<SiteId>)
      modifies this
      ensures Snapshot() == Selection.SetActive(old(Snapshot()), v, sites)
    {
      if v == active {
        return;
      }
      active := v;
      RunCleanup();
      Reconcile();
    }

    // -------------------------------------------------------------------------
    // The setup effect

    /** The `CULTURAL_SITES.forEach` loop: one attached marker and one detached popup per site. */
    method BuildMarkersAndPopups()
      modifies this`markers, this`popups
      ensures markers == Selection.MarkersFor(sites) && popups == Selection.PopupsFor(sites)
    {
      var ms: map<SiteId, Selection.Marker> := map[];
      var ps: map<SiteId, Selection.Popup> := map[];
      var i := 0;
      while i < |sites|
        invariant 0 <= i <= |sites|
        invariant ms == Selection.MarkersFor(sites[..i]) && ps == Selection.PopupsFor(sites[..i])
      {
        assert sites[..i + 1][..i] == sites[..i];
        ms := ms[sites[i].id := Selection.Marker(true, false)];
        ps := ps[sites[i].id := Selection.Popup(false, None)];
        i := i + 1;
      }
      assert sites[..i] == sites;
      markers, popups := ms, ps;
    }

    /** `onMapReady(map)`: the setup effect runs, closing over the selection as it is now, then a pass. */
    method OnMapReady()
      modifies this
      ensures Snapshot() == Selection.MapReady(old(Snapshot()), sites)
    {
      if mapReady {
        return;
      }
      mapReady := true;
      RunCleanup();
      BuildMarkersAndPopups();
      captured := active;
      Reconcile();
    }

    /** The component unmounts: the selection pass's cleanup, then the setup effect's. */
    method Unmount()
      modifies this
      ensures Snapshot() == Selection.Unmount(old(Snapshot()))
    {
      RunCleanup();
      RemoveAllMarkers();
      RemoveAllPopups();
    }

    // -------------------------------------------------------------------------
    // Event handlers

    /** A click on marker `id`, comparing with the selection the handler captured. */
    method ClickMarker(id: SiteId)
      modifies this
      ensures Snapshot() == Selection.ClickMarker(old(Snapshot()), id, sites)
    {
      if id in markers {
        if captured == Some(id) {
          SetActiveMarkerId(None);
        } else {
          SetActiveMarkerId(Some(id));
        }
      }
    }

    /** A click on marker `id`, comparing with the live selection. */
    method ClickMarkerLive(id: SiteId)
      modifies this
      ensures Snapshot() == Selection.ClickMarkerLive(old(Snapshot()), id, sites)
    {
      if id in markers {
        if active == Some(id) {
          SetActiveMarkerId(None);
        } else {
          SetActiveMarkerId(Some(id));
        }
      }
    }

    /** A click on the map; `onMarker` says whether its target has a `.cultural-marker` ancestor. */
    method ClickMap(onMarker: bool)
      modifies this
      ensures Snapshot() == Selection.ClickMap(old(Snapshot()), onMarker, sites)
    {
      if listeners != {} && !onMarker {
        SetActiveMarkerId(None);
      }
    }

    /** A click on the close button of the attached popup `id`. */
    method ClickClose(id: SiteId)
      modifies this
      ensures Snapshot() == Selection.ClickClose(old(Snapshot()), id, sites)
    {
      if id in popups && popups[id].attached {
        SetActiveMarkerId(None);
      }
    }

    /** A click on the like button of the attached popup `id`: `liked = !liked`, then the count. */
    method ClickLike(id: SiteId)
      modifies this
      ensures Snapshot() == Selection.ClickLike(old(Snapshot()), id)
    {
      if id in popups && popups[id].attached && popups[id].content.Some? {
        var c := popups[id].content.value;
        var liked := !c.like.liked;
        var count := if liked then c.like.count + 1 else if c.like.count - 1 < 0 then 0 else c.like.count - 1;
        popups := popups[id := popups[id].(content := Some(c.(like := LikeCounter.LikeState(liked, count))))];
      }
    }

    /** The `k`-th scheduled `popup.addTo(map)` runs, as written: no check of the selection. */
    method FireAttach(k: nat)
      requires k < |pending|
      modifies this
      ensures Snapshot() == Selection.FireAttach(old(Snapshot()), k)
    {
      var id := pending[k];
      pending := pending[..k] + pending[k + 1..];
      if id in popups {
        popups := popups[id := popups[id].(attached := true)];
      }
    }

    /** The `k`-th scheduled attachment, attaching only if its site is still selected, so that a late timer attaches nothing. */
    method FireAttachGuarded(k: nat)
      requires k < |pending|
      modifies this
      ensures Snapshot() == Selection.FireAttachGuarded(old(Snapshot()), k)
    {
      var id := pending[k];
      pending := pending[..k] + pending[k + 1..];
      if active == Some(id) && id in popups {
        popups := popups[id := popups[id].(attached := true)];
      }
    }
  }
}
