/**
 * The selection controller of `CulturalMap`, as values: the state the
 * component keeps (the selected site id, the marker and popup dictionaries,
 * the camera target, the registered map-click listeners, the deferred popup
 * attachments and the cleanup of the last reconciliation pass) and one
 * function per thing that can happen to it.
 *
 * React's effect scheduling is taken as sequential: a change of the selected
 * id runs the previous pass's cleanup and then one reconciliation pass, and
 * setting the selection to the value it already has does nothing.
 */
module Selection {
  import opened Wrappers
  import opened Catalog
  import LikeCounter

  /** Zoom of the default city-wide view. */
  const DefaultZoom: int := 11
  /** Zoom of the close-up on a selected site. */
  const ActiveZoom: int := 15

  /** Where the camera is asked to go: the default centre or a site's position. */
  datatype Target = DefaultCenter | SiteCenter(site: SiteId)
  datatype Camera = Camera(target: Target, zoom: int)

  /** A marker: whether it is on the map, and whether it carries the `active` class. */
  datatype Marker = Marker(attached: bool, active: bool)

  /** The DOM content last set on a popup: whose it is, and its like button. */
  datatype PopupContent = PopupContent(site: SiteId, like: LikeCounter.LikeState)

  /** A popup: whether it is on the map, and its content. */
  datatype Popup = Popup(attached: bool, content: Option<PopupContent>)

  /** What a pass with a selection hands back to run before the next one. */
  datatype PassCleanup = PassCleanup(handler: nat, popup: SiteId)

  datatype State = State(
    mapReady: bool,                  // `mapInstance` is set
    active: Option<SiteId>,          // `activeMarkerId`
    captured: Option<SiteId>,        // `activeMarkerId` as the marker click handlers closed over it
    markers: map<SiteId, Marker>,    // `markersRef.current`
    popups: map<SiteId, Popup>,      // `popupsRef.current`
    camera: Camera,                  // the last `easeTo` target
    listeners: set<nat>,             // the map-click handlers registered, by identity
    nextHandler: nat,                // identity of the next handler created
    pending: seq<SiteId>,            // `popup.addTo` calls scheduled and not yet run
    cleanup: Option<PassCleanup>)    // cleanup returned by the last pass

  /** Before the map exists: nothing selected, no markers, camera at the map's initial view. */
  function Initial(): (s: State)
    ensures !s.mapReady && s.active.None? && s.markers == map[] && s.listeners == {}
  {
    State(false, None, None, map[], map[], Camera(DefaultCenter, DefaultZoom), {}, 0, [], None)
  }

  /** JavaScript truthiness of `activeMarkerId`: `null` and `""` both count as no selection. */
  predicate Truthy(v: Option<SiteId>)
  {
    v.Some? && v.value != ""
  }

  // ---------------------------------------------------------------------------
  // The `forEach` passes over the dictionaries

  /** `classList.remove("active")` on every marker. */
  function Deactivated(ms: map<SiteId, Marker>): (r: map<SiteId, Marker>)
    ensures r.Keys == ms.Keys
    ensures forall m :: m in r ==> !r[m].active && r[m].attached == ms[m].attached
  {
    map m | m in ms :: ms[m].(active := false)
  }

  /** `classList.add("active")` on the marker `id`, `remove` on every other. */
  function Activated(ms: map<SiteId, Marker>, id: SiteId): (r: map<SiteId, Marker>)
    ensures r.Keys == ms.Keys
    ensures forall m :: m in r ==> (r[m].active <==> m == id) && r[m].attached == ms[m].attached
  {
    map m | m in ms :: ms[m].(active := (m == id))
  }

  /** `marker.remove()` on every marker. */
  function MarkersRemoved(ms: map<SiteId, Marker>): (r: map<SiteId, Marker>)
    ensures r.Keys == ms.Keys
    ensures forall m :: m in r ==> !r[m].attached && r[m].active == ms[m].active
  {
    map m | m in ms :: ms[m].(attached := false)
  }

  /** `popup.remove()` on every popup. */
  function PopupsRemoved(ps: map<SiteId, Popup>): (r: map<SiteId, Popup>)
    ensures r.Keys == ps.Keys
    ensures forall p :: p in r ==> !r[p].attached && r[p].content == ps[p].content
  {
    map p | p in ps :: ps[p].(attached := false)
  }

  /** `popup.remove()` on the popup `id` only. */
  function PopupRemoved(ps: map<SiteId, Popup>, id: SiteId): (r: map<SiteId, Popup>)
    ensures r.Keys == ps.Keys
    ensures id in r ==> !r[id].attached && r[id].content == ps[id].content
    ensures forall p :: p in r && p != id ==> r[p] == ps[p]
  {
    if id in ps then ps[id := ps[id].(attached := false)] else ps
  }

  /** The marker dictionary the setup loop builds: one attached, inactive marker per site id. */
  function MarkersFor(sites: seq<Site>): (r: map<SiteId, Marker>)
    ensures r.Keys == Ids(sites)
    ensures forall m :: m in r ==> r[m] == Marker(true, false)
  {
    if sites == [] then map[]
    else
      var init := sites[..|sites| - 1];
      IdsSnoc(sites);
      MarkersFor(init)[sites[|sites| - 1].id := Marker(true, false)]
  }

  /** The popup dictionary the setup loop builds: one detached, empty popup per site id. */
  function PopupsFor(sites: seq<Site>): (r: map<SiteId, Popup>)
    ensures r.Keys == Ids(sites)
    ensures forall p :: p in r ==> r[p] == Popup(false, None)
  {
    if sites == [] then map[]
    else
      var init := sites[..|sites| - 1];
      IdsSnoc(sites);
      PopupsFor(init)[sites[|sites| - 1].id := Popup(false, None)]
  }

  lemma IdsSnoc(sites: seq<Site>)
    requires sites != []
    ensures Ids(sites) == Ids(sites[..|sites| - 1]) + {sites[|sites| - 1].id}
  {
    var init := sites[..|sites| - 1];
    forall x | x in Ids(sites) ensures x in Ids(init) + {sites[|sites| - 1].id} {
      var i :| 0 <= i < |sites| && sites[i].id == x;
      if i < |sites| - 1 { assert init[i].id == x; }
    }
    forall x | x in Ids(init) ensures x in Ids(sites) {
      var i :| 0 <= i < |init| && init[i].id == x;
      assert sites[i].id == x;
    }
  }

  // ---------------------------------------------------------------------------
  // One reconciliation pass and its cleanup

  /** The popup content a pass builds for a site: a fresh like button. */
  function FreshContent(site: Site): (c: PopupContent)
    ensures c.site == site.id && !c.like.liked
    ensures c.like.count == LikeCounter.Seed(site.initialLikes)
  {
    PopupContent(site.id, LikeCounter.Fresh(site.initialLikes))
  }

  /** The selected id has a marker, a popup and a catalogue record. */
  predicate Present(s: State, sites: seq<Site>, id: SiteId)
  {
    id in s.markers && id in s.popups && Find(sites, id).Some?
  }

  /**
   * The cleanup of the last pass, if it returned one: unregister its
   * map-click handler and remove its popup.
   */
  function RunCleanup(s: State): (r: State)
    ensures r.cleanup.None?
    ensures s.cleanup.None? ==> r == s
    ensures s.cleanup.Some? ==>
              && r.listeners == s.listeners - {s.cleanup.value.handler}
              && r.popups == PopupRemoved(s.popups, s.cleanup.value.popup)
              && r == s.(listeners := r.listeners, popups := r.popups, cleanup := None)
  {
    match s.cleanup
    case None => s
    case Some(c) =>
      s.(listeners := s.listeners - {c.handler}, popups := PopupRemoved(s.popups, c.popup), cleanup := None)
  }

  /**
   * The body of the selection effect.  Without a map or without a selection
   * it clears every marker's `active` class, removes every popup and, with a
   * map and no selection, eases back to the default view.  With a selection
   * that has a marker, a popup and a record it marks that marker alone
   * active, gives the popup fresh content, schedules its attachment, eases to
   * the site and registers one new map-click handler; the cleanup it returns
   * undoes the last two.  A selection missing any of the three changes nothing.
   */
  function Reconcile(s: State, sites: seq<Site>): (r: State)
    ensures r.mapReady == s.mapReady && r.active == s.active && r.captured == s.captured
    ensures r.markers.Keys == s.markers.Keys && r.popups.Keys == s.popups.Keys
    ensures forall m :: m in r.markers ==> r.markers[m].attached == s.markers[m].attached
    ensures !(s.mapReady && Truthy(s.active)) ==>
              && (forall m :: m in r.markers ==> !r.markers[m].active)
              && (forall p :: p in r.popups ==> !r.popups[p].attached && r.popups[p].content == s.popups[p].content)
              && r.camera == (if s.mapReady then Camera(DefaultCenter, DefaultZoom) else s.camera)
              && r.listeners == s.listeners && r.nextHandler == s.nextHandler
              && r.pending == s.pending && r.cleanup.None?
    ensures s.mapReady && Truthy(s.active) && Present(s, sites, s.active.value) ==>
              var id := s.active.value;
              && (forall m :: m in r.markers ==> (r.markers[m].active <==> m == id))
              && (forall p :: p in r.popups ==> r.popups[p].attached == s.popups[p].attached)
              && (forall p :: p in r.popups && p != id ==> r.popups[p] == s.popups[p])
              && r.popups[id].content == Some(FreshContent(Find(sites, id).value))
              && r.camera == Camera(SiteCenter(id), ActiveZoom)
              && r.listeners == s.listeners + {s.nextHandler} && r.nextHandler == s.nextHandler + 1
              && r.pending == s.pending + [id]
              && r.cleanup == Some(PassCleanup(s.nextHandler, id))
    ensures s.mapReady && Truthy(s.active) && !Present(s, sites, s.active.value) ==>
              r == s.(cleanup := None)
  {
    if !s.mapReady || !Truthy(s.active) then
      s.(markers := Deactivated(s.markers),
         popups := PopupsRemoved(s.popups),
         camera := if s.mapReady then Camera(DefaultCenter, DefaultZoom) else s.camera,
         cleanup := None)
    else
      var id := s.active.value;
      if !Present(s, sites, id) then
        s.(cleanup := None)
      else
        var site := Find(sites, id).value;
        s.(markers := Activated(s.markers, id),
           popups := s.popups[id := s.popups[id].(content := Some(FreshContent(site)))],
           pending := s.pending + [id],
           camera := Camera(SiteCenter(id), ActiveZoom),
           listeners := s.listeners + {s.nextHandler},
           nextHandler := s.nextHandler + 1,
           cleanup := Some(PassCleanup(s.nextHandler, id)))
  }

  /** `setActiveMarkerId(v)`: nothing when `v` is the current value, else cleanup then a pass. */
  function SetActive(s: State, v: Option<SiteId>, sites: seq<Site>): (r: State)
    ensures r.active == v
    ensures r.mapReady == s.mapReady && r.markers.Keys == s.markers.Keys && r.popups.Keys == s.popups.Keys
    ensures v == s.active ==> r == s
  {
    if v == s.active then s else Reconcile(RunCleanup(s.(active := v)), sites)
  }

  /**
   * `onMapReady(map)`: `mapInstance` is set, so both effects run again.  The
   * setup effect builds one marker and one popup per site and wires each
   * marker's click handler to the selection as it is at that moment; then
   * the selection effect runs a pass.
   */
  function MapReady(s: State, sites: seq<Site>): (r: State)
    ensures r.mapReady
    ensures s.mapReady ==> r == s
    ensures !s.mapReady ==> r.markers.Keys == Ids(sites) && r.popups.Keys == Ids(sites) && r.captured == s.active
    ensures !s.mapReady && !Truthy(s.active) ==>
              && r.active == s.active
              && (forall m :: m in r.markers ==> r.markers[m] == Marker(true, false))
              && (forall p :: p in r.popups ==> !r.popups[p].attached && r.popups[p].content.None?)
              && r.camera == Camera(DefaultCenter, DefaultZoom)
              && r.listeners == (if s.cleanup.Some? then s.listeners - {s.cleanup.value.handler} else s.listeners)
              && r.pending == s.pending && r.cleanup.None?
  {
    if s.mapReady then s
    else
      var c := RunCleanup(s.(mapReady := true));
      Reconcile(c.(markers := MarkersFor(sites), popups := PopupsFor(sites), captured := s.active), sites)
  }

  // ---------------------------------------------------------------------------
  // Events

  /**
   * The marker click handler's decision: deselect when the selection it
   * compares with is this site, otherwise select this site.
   */
  function ToggleDecision(compareWith: Option<SiteId>, id: SiteId): (v: Option<SiteId>)
    ensures v.None? <==> compareWith == Some(id)
    ensures v.Some? ==> v.value == id
  {
    if compareWith == Some(id) then None else Some(id)
  }

  /**
   * A click on marker `id`, as written: the handler compares with the
   * selection captured when the markers were set up, not the live one.
   */
  function ClickMarker(s: State, id: SiteId, sites: seq<Site>): (r: State)
    ensures id in s.markers ==> r.active == ToggleDecision(s.captured, id)
    ensures id !in s.markers ==> r == s
  {
    if id in s.markers then SetActive(s, ToggleDecision(s.captured, id), sites) else s
  }

  /** A click on marker `id`, comparing with the live selection. */
  function ClickMarkerLive(s: State, id: SiteId, sites: seq<Site>): (r: State)
    ensures id in s.markers ==> r.active == ToggleDecision(s.active, id)
    ensures id !in s.markers ==> r == s
  {
    if id in s.markers then SetActive(s, ToggleDecision(s.active, id), sites) else s
  }

  /**
   * A click on the map.  Each registered dismiss handler clears the
   * selection unless the click target lies inside a `.cultural-marker`.
   */
  function ClickMap(s: State, onMarker: bool, sites: seq<Site>): (r: State)
    ensures s.listeners != {} && !onMarker ==> r.active.None?
    ensures s.listeners == {} || onMarker ==> r == s
  {
    if s.listeners != {} && !onMarker then SetActive(s, None, sites) else s
  }

  /** A click on the close button of the popup `id`, which is only reachable while it is attached. */
  function ClickClose(s: State, id: SiteId, sites: seq<Site>): (r: State)
    ensures id in s.popups && s.popups[id].attached ==> r.active.None?
    ensures !(id in s.popups && s.popups[id].attached) ==> r == s
  {
    if id in s.popups && s.popups[id].attached then SetActive(s, None, sites) else s
  }

  /** A click on the like button of the attached popup `id`: only its like state changes. */
  function ClickLike(s: State, id: SiteId): (r: State)
    ensures r.popups.Keys == s.popups.Keys
    ensures forall p :: p in r.popups ==> r.popups[p].attached == s.popups[p].attached
    ensures forall p :: p in r.popups && p != id ==> r.popups[p] == s.popups[p]
    ensures id in s.popups && s.popups[id].attached && s.popups[id].content.Some? ==>
              r.popups[id].content == Some(s.popups[id].content.value.(like := LikeCounter.Toggle(s.popups[id].content.value.like)))
    ensures r == s.(popups := r.popups)
  {
    if id in s.popups && s.popups[id].attached && s.popups[id].content.Some? then
      var c := s.popups[id].content.value;
      s.(popups := s.popups[id := s.popups[id].(content := Some(c.(like := LikeCounter.Toggle(c.like))))])
    else s
  }

  /** The `k`-th scheduled attachment, removed from the schedule; the others keep their order. */
  function Unschedule(pending: seq<SiteId>, k: nat): (r: seq<SiteId>)
    requires k < |pending|
    ensures |r| == |pending| - 1
    ensures forall j :: 0 <= j < |r| ==> r[j] == if j < k then pending[j] else pending[j + 1]
  {
    pending[..k] + pending[k + 1..]
  }

  /** A fired timer leaves the schedule: exactly one occurrence of its id is gone. */
  lemma UnscheduleRemovesOne(pending: seq<SiteId>, k: nat)
    requires k < |pending|
    ensures multiset(Unschedule(pending, k)) + multiset{pending[k]} == multiset(pending)
  {
    assert pending == pending[..k] + [pending[k]] + pending[k + 1..];
  }

  /**
   * The 100 ms timer of the `k`-th scheduled attachment fires, as written:
   * `popup.addTo(map)` runs whatever the selection is by now.
   */
  function FireAttach(s: State, k: nat): (r: State)
    requires k < |s.pending|
    ensures r == s.(popups := r.popups, pending := Unschedule(s.pending, k))
    ensures r.popups.Keys == s.popups.Keys
    ensures forall p :: p in r.popups && p != s.pending[k] ==> r.popups[p] == s.popups[p]
    ensures s.pending[k] in s.popups ==>
              r.popups[s.pending[k]] == s.popups[s.pending[k]].(attached := true)
  {
    var id := s.pending[k];
    var popups := if id in s.popups then s.popups[id := s.popups[id].(attached := true)] else s.popups;
    s.(popups := popups, pending := Unschedule(s.pending, k))
  }

  /**
   * The same timer with a guard, so that a timer outliving its selection
   * attaches nothing: the popup goes on the map only if its site is still
   * the selection.
   */
  function FireAttachGuarded(s: State, k: nat): (r: State)
    requires k < |s.pending|
    ensures r == s.(popups := r.popups, pending := Unschedule(s.pending, k))
    ensures r.popups.Keys == s.popups.Keys
    ensures forall p :: p in r.popups && p != s.pending[k] ==> r.popups[p] == s.popups[p]
    ensures s.active == Some(s.pending[k]) && s.pending[k] in s.popups ==>
              r.popups[s.pending[k]] == s.popups[s.pending[k]].(attached := true)
    ensures s.active != Some(s.pending[k]) ==> r.popups == s.popups
  {
    var id := s.pending[k];
    var popups := if s.active == Some(id) && id in s.popups then s.popups[id := s.popups[id].(attached := true)] else s.popups;
    s.(popups := popups, pending := Unschedule(s.pending, k))
  }

  /**
   * The component unmounts: the selection pass's cleanup runs, then the
   * setup effect's, which removes every marker and every popup.
   */
  function Unmount(s: State): (r: State)
    ensures forall m :: m in r.markers ==> !r.markers[m].attached
    ensures forall p :: p in r.popups ==> !r.popups[p].attached
    ensures s.cleanup.Some? ==> s.cleanup.value.handler !in r.listeners
  {
    var c := RunCleanup(s);
    c.(markers := MarkersRemoved(c.markers), popups := PopupsRemoved(c.popups))
  }

  // ---------------------------------------------------------------------------
  // The invariant of a coherent controller

  /**
   * What the controller as written keeps true between events: markers and
   * popups exist only once the map does, and for the same catalogue ids; the
   * selection is a marker's id; a pass cleanup is outstanding exactly when
   * something is selected, and it owns the one registered map-click handler;
   * only the selected marker is active; every scheduled attachment is for a
   * popup that exists.
   */
  ghost predicate Wired(s: State, sites: seq<Site>)
  {
    && (!s.mapReady ==> s.markers == map[] && s.pending == [])
    && s.markers.Keys == s.popups.Keys
    && s.markers.Keys <= Ids(sites)
    && (s.active.Some? ==> s.active.value in s.markers)
    && (s.cleanup.Some? <==> Truthy(s.active))
    && (s.cleanup.Some? ==> s.active == Some(s.cleanup.value.popup) && s.cleanup.value.handler < s.nextHandler)
    && s.listeners == (if s.cleanup.Some? then {s.cleanup.value.handler} else {})
    && (forall m :: m in s.markers && s.markers[m].active ==> s.active == Some(m))
    && (forall k :: 0 <= k < |s.pending| ==> s.pending[k] in s.popups && s.pending[k] != "")
  }

  /** What the corrected controller keeps true besides: only the selected popup is on the map. */
  ghost predicate Coherent(s: State, sites: seq<Site>)
  {
    && Wired(s, sites)
    && (forall p :: p in s.popups && s.popups[p].attached ==> s.active == Some(p) && Truthy(s.active))
  }

  lemma InitialCoherent(sites: seq<Site>)
    ensures Coherent(Initial(), sites)
  {
  }

  /**
   * A state right after a pass cleanup, with the new selection already in
   * place: the shape invariants hold, and no handler or popup is left over.
   */
  ghost predicate CleanedUp(c: State, sites: seq<Site>)
  {
    && (!c.mapReady ==> c.markers == map[] && c.pending == [])
    && c.markers.Keys == c.popups.Keys
    && c.markers.Keys <= Ids(sites)
    && (c.active.Some? ==> c.active.value in c.markers)
    && c.cleanup.None?
    && c.listeners == {}
    && (forall p :: p in c.popups ==> !c.popups[p].attached)
    && (forall k :: 0 <= k < |c.pending| ==> c.pending[k] in c.popups && c.pending[k] != "")
  }

  /** The previous pass's cleanup leaves no handler registered and no popup attached. */
  lemma {:induction false} CleanupLeavesNothing(s: State, v: Option<SiteId>, sites: seq<Site>)
    requires Coherent(s, sites)
    requires v.Some? ==> v.value in s.markers
    ensures CleanedUp(RunCleanup(s.(active := v)), sites)
  {
    var c := RunCleanup(s.(active := v));
    forall p | p in c.popups ensures !c.popups[p].attached {
      if s.popups[p].attached {
        assert s.cleanup.value.popup == p;
      }
    }
  }

  /** A pass run on a cleaned-up state with nothing selected leaves a coherent state. */
  lemma {:induction false} ClearingPassCoherent(c: State, sites: seq<Site>)
    requires CleanedUp(c, sites)
    requires !(c.mapReady && Truthy(c.active))
    ensures Coherent(Reconcile(c, sites), sites)
  {
  }

  /** A pass run on a cleaned-up state with a marker selected leaves a coherent state. */
  lemma {:induction false} SelectingPassCoherent(c: State, sites: seq<Site>)
    requires CleanedUp(c, sites)
    requires c.mapReady && Truthy(c.active)
    ensures Coherent(Reconcile(c, sites), sites)
  {
    var id := c.active.value;
    FindInIds(sites, id);
    assert Present(c, sites, id);
    var r := Reconcile(c, sites);
    forall k | 0 <= k < |r.pending| ensures r.pending[k] in r.popups && r.pending[k] != "" {
      if k < |c.pending| { assert r.pending[k] == c.pending[k]; }
    }
  }

  /** Changing the selection to nothing or to a marker's id keeps the controller coherent. */
  lemma {:induction false} SetActiveCoherent(s: State, v: Option<SiteId>, sites: seq<Site>)
    requires Coherent(s, sites)
    requires v.Some? ==> v.value in s.markers
    ensures Coherent(SetActive(s, v, sites), sites)
  {
    if v != s.active {
      CleanupLeavesNothing(s, v, sites);
      var c := RunCleanup(s.(active := v));
      if c.mapReady && Truthy(c.active) {
        SelectingPassCoherent(c, sites);
      } else {
        ClearingPassCoherent(c, sites);
      }
    }
  }

  lemma FindInIds(sites: seq<Site>, id: SiteId)
    requires id in Ids(sites)
    ensures Find(sites, id).Some?
  {
  }

  lemma {:induction false} MapReadyCoherent(s: State, sites: seq<Site>)
    requires Coherent(s, sites)
    ensures Coherent(MapReady(s, sites), sites)
  {
    if !s.mapReady {
      var c := RunCleanup(s.(mapReady := true));
      assert c == s.(mapReady := true);
      var d := c.(markers := MarkersFor(sites), popups := PopupsFor(sites), captured := s.active);
      assert !Truthy(d.active);
    }
  }

  lemma {:induction false} FireAttachGuardedCoherent(s: State, k: nat, sites: seq<Site>)
    requires Coherent(s, sites)
    requires k < |s.pending|
    ensures Coherent(FireAttachGuarded(s, k), sites)
  {
    var r := FireAttachGuarded(s, k);
    forall j | 0 <= j < |r.pending| ensures r.pending[j] in r.popups && r.pending[j] != "" {
      if j < k { assert r.pending[j] == s.pending[j]; }
      else { assert r.pending[j] == s.pending[j + 1]; }
    }
  }

  // ---------------------------------------------------------------------------
  // Event sequences

  datatype Event =
    | MapLoaded
    | MarkerClicked(id: SiteId)
    | MapClicked(onMarker: bool)
    | CloseClicked(id: SiteId)
    | LikeClicked(id: SiteId)
    | AttachTimerFired(k: nat)

  /** One event, handled with the live toggle and the guarded attachment. */
  function Step(s: State, e: Event, sites: seq<Site>): State
  {
    match e
    case MapLoaded => MapReady(s, sites)
    case MarkerClicked(id) => ClickMarkerLive(s, id, sites)
    case MapClicked(onMarker) => ClickMap(s, onMarker, sites)
    case CloseClicked(id) => ClickClose(s, id, sites)
    case LikeClicked(id) => ClickLike(s, id)
    case AttachTimerFired(k) => if k < |s.pending| then FireAttachGuarded(s, k) else s
  }

  function Run(s: State, events: seq<Event>, sites: seq<Site>): State
    decreases |events|
  {
    if events == [] then s else Run(Step(s, events[0], sites), events[1..], sites)
  }

  lemma {:induction false} StepCoherent(s: State, e: Event, sites: seq<Site>)
    requires Coherent(s, sites)
    ensures Coherent(Step(s, e, sites), sites)
  {
    match e
    case MapLoaded => MapReadyCoherent(s, sites);
    case MarkerClicked(id) =>
      if id in s.markers { SetActiveCoherent(s, ToggleDecision(s.active, id), sites); }
    case MapClicked(onMarker) => SetActiveCoherent(s, None, sites);
    case CloseClicked(id) => SetActiveCoherent(s, None, sites);
    case LikeClicked(id) =>
    case AttachTimerFired(k) =>
      if k < |s.pending| { FireAttachGuardedCoherent(s, k, sites); }
  }

  /** Whatever the events, the corrected controller stays coherent. */
  lemma {:induction false} RunCoherent(s: State, events: seq<Event>, sites: seq<Site>)
    requires Coherent(s, sites)
    ensures Coherent(Run(s, events, sites), sites)
    decreases |events|
  {
    if events != [] {
      StepCoherent(s, events[0], sites);
      RunCoherent(Step(s, events[0], sites), events[1..], sites);
    }
  }

  /**
   * In every state the corrected controller reaches: at most one marker is
   * active and it is the selected one, at most one popup is attached and it
   * is the selected one (no ghost popup), and exactly one dismiss handler is
   * registered while something is selected, none otherwise.
   */
  lemma SingleActiveSelection(events: seq<Event>, sites: seq<Site>)
    ensures var s := Run(Initial(), events, sites);
            && (forall m, n :: m in s.markers && n in s.markers && s.markers[m].active && s.markers[n].active ==> m == n)
            && (forall m :: m in s.markers && s.markers[m].active ==> s.active == Some(m))
            && (forall p, q :: p in s.popups && q in s.popups && s.popups[p].attached && s.popups[q].attached ==> p == q)
            && (forall p :: p in s.popups && s.popups[p].attached ==> s.active == Some(p))
            && (!Truthy(s.active) ==> s.listeners == {})
            && (Truthy(s.active) ==> |s.listeners| == 1)
  {
    InitialCoherent(sites);
    RunCoherent(Initial(), events, sites);
  }

  // ---------------------------------------------------------------------------
  // What the controller as written keeps

  /** As written, a change of selection keeps the controller wired. */
  lemma {:induction false} WiredSetActive(s: State, v: Option<SiteId>, sites: seq<Site>)
    requires Wired(s, sites)
    requires v.Some? ==> v.value in s.markers
    ensures Wired(SetActive(s, v, sites), sites)
  {
    if v != s.active {
      var c := RunCleanup(s.(active := v));
      assert c.listeners == {} && c.cleanup.None? && c.markers == s.markers && c.pending == s.pending;
      WiredReconcile(c, sites);
    }
  }

  /** A pass run after the cleanup keeps the controller wired. */
  lemma {:induction false} WiredReconcile(c: State, sites: seq<Site>)
    requires !c.mapReady ==> c.markers == map[] && c.pending == []
    requires c.markers.Keys == c.popups.Keys && c.markers.Keys <= Ids(sites)
    requires c.active.Some? ==> c.active.value in c.markers
    requires c.cleanup.None? && c.listeners == {}
    requires forall k :: 0 <= k < |c.pending| ==> c.pending[k] in c.popups && c.pending[k] != ""
    ensures Wired(Reconcile(c, sites), sites)
  {
    if c.mapReady && Truthy(c.active) {
      FindInIds(sites, c.active.value);
      var r := Reconcile(c, sites);
      forall k | 0 <= k < |r.pending| ensures r.pending[k] in r.popups && r.pending[k] != "" {
        if k < |c.pending| { assert r.pending[k] == c.pending[k]; }
      }
    }
  }

  /** As written, the map's arrival keeps the controller wired. */
  lemma {:induction false} WiredMapReady(s: State, sites: seq<Site>)
    requires Wired(s, sites)
    ensures Wired(MapReady(s, sites), sites)
  {
    if !s.mapReady {
      var c := RunCleanup(s.(mapReady := true));
      var d := c.(markers := MarkersFor(sites), popups := PopupsFor(sites), captured := s.active);
      assert d.active.None?;
      assert d.listeners == {} && d.cleanup.None? && d.pending == [];
    }
  }

  /** As written, a timer firing keeps the controller wired, though it may attach a stale popup. */
  lemma {:induction false} WiredFireAttach(s: State, k: nat, sites: seq<Site>)
    requires Wired(s, sites)
    requires k < |s.pending|
    ensures Wired(FireAttach(s, k), sites)
  {
    var r := FireAttach(s, k);
    forall j | 0 <= j < |r.pending| ensures r.pending[j] in r.popups && r.pending[j] != "" {
      if j < k { assert r.pending[j] == s.pending[j]; }
      else { assert r.pending[j] == s.pending[j + 1]; }
    }
  }

  /** One event, handled as written: the captured toggle and the unguarded attachment. */
  function StepAsWritten(s: State, e: Event, sites: seq<Site>): State
  {
    match e
    case MapLoaded => MapReady(s, sites)
    case MarkerClicked(id) => ClickMarker(s, id, sites)
    case MapClicked(onMarker) => ClickMap(s, onMarker, sites)
    case CloseClicked(id) => ClickClose(s, id, sites)
    case LikeClicked(id) => ClickLike(s, id)
    case AttachTimerFired(k) => if k < |s.pending| then FireAttach(s, k) else s
  }

  function RunAsWritten(s: State, events: seq<Event>, sites: seq<Site>): State
    decreases |events|
  {
    if events == [] then s else RunAsWritten(StepAsWritten(s, events[0], sites), events[1..], sites)
  }

  lemma {:induction false} StepAsWrittenWired(s: State, e: Event, sites: seq<Site>)
    requires Wired(s, sites)
    ensures Wired(StepAsWritten(s, e, sites), sites)
  {
    match e
    case MapLoaded => WiredMapReady(s, sites);
    case MarkerClicked(id) =>
      if id in s.markers { WiredSetActive(s, ToggleDecision(s.captured, id), sites); }
    case MapClicked(onMarker) => WiredSetActive(s, None, sites);
    case CloseClicked(id) => WiredSetActive(s, None, sites);
    case LikeClicked(id) =>
    case AttachTimerFired(k) =>
      if k < |s.pending| { WiredFireAttach(s, k, sites); }
  }

  lemma {:induction false} RunAsWrittenWired(s: State, events: seq<Event>, sites: seq<Site>)
    requires Wired(s, sites)
    ensures Wired(RunAsWritten(s, events, sites), sites)
    decreases |events|
  {
    if events != [] {
      StepAsWrittenWired(s, events[0], sites);
      RunAsWrittenWired(StepAsWritten(s, events[0], sites), events[1..], sites);
    }
  }

  /**
   * What the controller as written does keep, whatever the events: at most
   * one marker is active and it is the selected one, and exactly one dismiss
   * handler is registered while something is selected, none otherwise.
   * (Popups are another matter: see the deferred-attachment finding below.)
   */
  lemma SingleActiveMarkerAsWritten(events: seq<Event>, sites: seq<Site>)
    ensures var s := RunAsWritten(Initial(), events, sites);
            && (forall m, n :: m in s.markers && n in s.markers && s.markers[m].active && s.markers[n].active ==> m == n)
            && (forall m :: m in s.markers && s.markers[m].active ==> s.active == Some(m))
            && (!Truthy(s.active) ==> s.listeners == {})
            && (Truthy(s.active) ==> |s.listeners| == 1)
  {
    InitialCoherent(sites);
    RunAsWrittenWired(Initial(), events, sites);
  }

  // ---------------------------------------------------------------------------
  // Properties of single operations

  /**
   * A pass with a selection registers exactly one new handler; the cleanup it
   * returns unregisters that handler and removes that popup, and nothing else.
   */
  lemma PassThenCleanup(s: State, sites: seq<Site>)
    requires s.mapReady && Truthy(s.active) && Present(s, sites, s.active.value)
    requires s.cleanup.None? && s.nextHandler !in s.listeners
    ensures var r := Reconcile(s, sites);
            && |r.listeners - s.listeners| == 1
            && RunCleanup(r).listeners == s.listeners
            && !RunCleanup(r).popups[s.active.value].attached
            && (forall p :: p in s.popups && p != s.active.value ==> RunCleanup(r).popups[p].attached == s.popups[p].attached)
  {
    var r := Reconcile(s, sites);
    assert r.listeners - s.listeners == {s.nextHandler};
  }

  /** Re-selecting a site builds its popup anew: the like button starts over from the seed. */
  lemma ReselectResetsLikes(s: State, id: SiteId, sites: seq<Site>)
    requires Coherent(s, sites)
    requires s.mapReady && id in s.markers && id != "" && s.active != Some(id)
    ensures var r := SetActive(s, Some(id), sites);
            && r.popups[id].content.Some?
            && r.popups[id].content.value.like == LikeCounter.Fresh(Find(sites, id).value.initialLikes)
  {
    CleanupLeavesNothing(s, Some(id), sites);
    FindInIds(sites, id);
  }

  /** On a coherent controller, unmounting leaves no handler registered and nothing on the map. */
  lemma UnmountReleasesAll(s: State, sites: seq<Site>)
    requires Coherent(s, sites)
    ensures var r := Unmount(s);
            && r.listeners == {}
            && (forall m :: m in r.markers ==> !r.markers[m].attached)
            && (forall p :: p in r.popups ==> !r.popups[p].attached)
  {
  }

  // ---------------------------------------------------------------------------
  // Finding: the marker click compares with a stale selection

  /** The setup effect runs when the map arrives, before anything can be selected. */
  lemma CapturedAtSetupIsNone(s: State, sites: seq<Site>)
    requires Coherent(s, sites) && !s.mapReady
    ensures MapReady(s, sites).captured == None
  {
  }

  /**
   * As written, with the captured selection `None`, a click on a marker
   * always selects it: clicking the selected marker does not deselect it.
   */
  lemma StaleCaptureNeverDeselects(s: State, id: SiteId, sites: seq<Site>)
    requires s.captured == None && id in s.markers
    ensures ClickMarker(s, id, sites).active == Some(id)
  {
  }

  /** Clicking the "kordon" marker twice leaves it selected, as written. */
  lemma StaleToggleScenario()
    ensures var s1 := MapReady(Initial(), CulturalSites);
            var s2 := ClickMarker(s1, "kordon", CulturalSites);
            var s3 := ClickMarker(s2, "kordon", CulturalSites);
            s2.active == Some("kordon") && s3.active == Some("kordon")
  {
    var s1 := MapReady(Initial(), CulturalSites);
    assert CulturalSites[0].id == "kordon";
    assert "kordon" in s1.markers;
    InitialCoherent(CulturalSites);
    CapturedAtSetupIsNone(Initial(), CulturalSites);
    var s2 := ClickMarker(s1, "kordon", CulturalSites);
    StaleCaptureNeverDeselects(s1, "kordon", CulturalSites);
    assert s2.markers.Keys == s1.markers.Keys && s2.captured == None;
    StaleCaptureNeverDeselects(s2, "kordon", CulturalSites);
  }

  /**
   * With the live comparison, clicking a marker twice from no selection
   * clears it again: no marker active, no popup attached, no handler
   * registered, camera back at the default view.
   */
  lemma {:induction false} ToggleTwiceClears(s: State, id: SiteId, sites: seq<Site>)
    requires Coherent(s, sites) && s.mapReady && s.active.None?
    requires id in s.markers && id != ""
    ensures var t := ClickMarkerLive(ClickMarkerLive(s, id, sites), id, sites);
            && t.active.None?
            && (forall m :: m in t.markers ==> !t.markers[m].active)
            && (forall p :: p in t.popups ==> !t.popups[p].attached)
            && t.listeners == {}
            && t.camera == Camera(DefaultCenter, DefaultZoom)
  {
    var s1 := ClickMarkerLive(s, id, sites);
    SetActiveCoherent(s, Some(id), sites);
    assert s1.active == Some(id);
    CleanupLeavesNothing(s1, None, sites);
  }

  // ---------------------------------------------------------------------------
  // Finding: a deferred attachment outlives the selection it was made for

  /**
   * Selecting a marker on a loaded, coherent controller schedules exactly
   * one attachment, for that marker's popup, and attaches nothing yet.
   */
  lemma {:induction false} SelectSchedulesAttach(s: State, a: SiteId, sites: seq<Site>)
    requires Coherent(s, sites) && s.mapReady
    requires a in s.markers && a != "" && s.active != Some(a)
    ensures var r := SetActive(s, Some(a), sites);
            && Coherent(r, sites) && r.mapReady && r.active == Some(a) && r.captured == s.captured
            && r.markers.Keys == s.markers.Keys
            && r.pending == s.pending + [a]
            && (forall p :: p in r.popups ==> !r.popups[p].attached)
  {
    CleanupLeavesNothing(s, Some(a), sites);
    FindInIds(sites, a);
    SetActiveCoherent(s, Some(a), sites);
  }

  /**
   * As written, a timer that fires for a popup that is not the selection's
   * puts it on the map anyway, and the controller is no longer coherent.
   */
  lemma StaleTimerAttaches(s: State, k: nat, sites: seq<Site>)
    requires k < |s.pending| && s.pending[k] in s.popups && s.active != Some(s.pending[k])
    ensures var r := FireAttach(s, k);
            && r.active == s.active
            && r.popups[s.pending[k]].attached
            && !Coherent(r, sites)
  {
  }

  /** As written, on a loaded controller whose handlers captured no selection, a click selects and schedules. */
  lemma {:induction false} ClickSelects(s: State, a: SiteId, sites: seq<Site>)
    requires Coherent(s, sites) && s.mapReady && s.captured.None?
    requires a in s.markers && a != "" && s.active != Some(a)
    ensures var r := ClickMarker(s, a, sites);
            && Coherent(r, sites) && r.mapReady && r.active == Some(a) && r.captured.None?
            && r.markers.Keys == s.markers.Keys && r.popups.Keys == s.popups.Keys
            && r.pending == s.pending + [a]
            && (forall p :: p in r.popups ==> !r.popups[p].attached)
  {
    assert ClickMarker(s, a, sites) == SetActive(s, Some(a), sites);
    SelectSchedulesAttach(s, a, sites);
  }

  /** Selecting `a` and then `b` schedules the two attachments, in that order, and attaches nothing yet. */
  lemma {:induction false} TwoSelections(s: State, a: SiteId, b: SiteId, sites: seq<Site>)
    requires Coherent(s, sites) && s.mapReady && s.active.None? && s.captured.None? && s.pending == []
    requires a in s.markers && b in s.markers && a != b && a != "" && b != ""
    ensures var s3 := ClickMarker(ClickMarker(s, a, sites), b, sites);
            && s3.pending == [a, b] && s3.active == Some(b)
            && a in s3.popups && b in s3.popups
            && !s3.popups[a].attached
  {
    ClickSelects(s, a, sites);
    SecondSelection(ClickMarker(s, a, sites), a, b, sites);
  }

  /** With `a` selected and scheduled, selecting `b` schedules `b` after it and detaches `a`'s popup. */
  lemma {:induction false} SecondSelection(s2: State, a: SiteId, b: SiteId, sites: seq<Site>)
    requires Coherent(s2, sites) && s2.mapReady && s2.captured.None? && s2.active == Some(a) && s2.pending == [a]
    requires a in s2.popups && b in s2.markers && a != b && b != ""
    ensures var s3 := ClickMarker(s2, b, sites);
            && s3.pending == [a, b] && s3.active == Some(b)
            && a in s3.popups && b in s3.popups
            && !s3.popups[a].attached
  {
    ClickSelects(s2, b, sites);
  }

  /**
   * As written: select `a`, then `b` before `a`'s 100 ms timer has fired.
   * When it fires, `a`'s popup goes on the map although `b` is selected, and
   * it stays there beside `b`'s once that timer fires too.
   */
  lemma {:induction false} GhostPopupAsWritten(s: State, a: SiteId, b: SiteId, sites: seq<Site>)
    requires Coherent(s, sites) && s.mapReady && s.active.None? && s.captured.None? && s.pending == []
    requires a in s.markers && b in s.markers && a != b && a != "" && b != ""
    ensures var s3 := ClickMarker(ClickMarker(s, a, sites), b, sites);
            && s3.pending == [a, b] && a in s3.popups && b in s3.popups
            && var s4 := FireAttach(s3, 0);
               && s4.active == Some(b) && s4.popups[a].attached && !Coherent(s4, sites)
               && s4.pending == [b]
               && FireAttach(s4, 0).popups[a].attached && FireAttach(s4, 0).popups[b].attached
  {
    TwoSelections(s, a, b, sites);
    var s3 := ClickMarker(ClickMarker(s, a, sites), b, sites);
    StaleTimerAttaches(s3, 0, sites);
    var s4 := FireAttach(s3, 0);
    assert s4.pending == [b];
  }

  /** With the guard, `a`'s late timer leaves its popup off the map. */
  lemma {:induction false} GhostPopupGuarded(s: State, a: SiteId, b: SiteId, sites: seq<Site>)
    requires Coherent(s, sites) && s.mapReady && s.active.None? && s.captured.None? && s.pending == []
    requires a in s.markers && b in s.markers && a != b && a != "" && b != ""
    ensures var s3 := ClickMarker(ClickMarker(s, a, sites), b, sites);
            && s3.pending == [a, b] && a in s3.popups
            && !FireAttachGuarded(s3, 0).popups[a].attached
  {
    TwoSelections(s, a, b, sites);
  }


  /**
   * As written: select `a`, then click the bare map before `a`'s timer has
   * fired.  The timer then puts `a`'s popup on the map with nothing selected
   * and no dismiss handler registered, so neither a map click nor its close
   * button takes it away.
   */
  lemma {:induction false} DismissedPopupStays(s: State, a: SiteId, sites: seq<Site>)
    requires Coherent(s, sites) && s.mapReady && s.active.None? && s.captured.None? && s.pending == []
    requires a in s.markers && a != ""
    ensures var s3 := ClickMap(ClickMarker(s, a, sites), false, sites);
            && s3.pending == [a] && a in s3.popups
            && var s4 := FireAttach(s3, 0);
               && s4.active.None? && s4.listeners == {} && s4.popups[a].attached
               && ClickMap(s4, false, sites) == s4
               && ClickClose(s4, a, sites) == s4
  {
    ClickSelects(s, a, sites);
    var s2 := ClickMarker(s, a, sites);
    var s3 := ClickMap(s2, false, sites);
    assert s3.pending == [a] && s3.active.None? && s3.listeners == {} && a in s3.popups by {
      assert s2.listeners != {};
      assert s3 == SetActive(s2, None, sites);
      CleanupLeavesNothing(s2, None, sites);
    }
  }

  /** The map has just loaded the shipped catalogue: nothing selected or scheduled yet. */
  lemma {:induction false} LoadedCatalogue()
    ensures var s := MapReady(Initial(), CulturalSites);
            && Coherent(s, CulturalSites) && s.mapReady && s.active.None? && s.captured.None? && s.pending == []
            && "kordon" in s.markers && "agora" in s.markers
  {
    InitialCoherent(CulturalSites);
    MapReadyCoherent(Initial(), CulturalSites);
    assert CulturalSites[0].id == "kordon" && CulturalSites[1].id == "agora";
  }

  /** The ghost popup on the shipped catalogue: "kordon" then "agora". */
  lemma GhostPopupScenario()
    ensures var s3 := ClickMarker(ClickMarker(MapReady(Initial(), CulturalSites), "kordon", CulturalSites), "agora", CulturalSites);
            && s3.pending == ["kordon", "agora"] && "kordon" in s3.popups
            && var s4 := FireAttach(s3, 0);
               s4.active == Some("agora") && s4.popups["kordon"].attached
  {
    LoadedCatalogue();
    GhostPopupAsWritten(MapReady(Initial(), CulturalSites), "kordon", "agora", CulturalSites);
  }

  /** The dismissed ghost popup on the shipped catalogue: select "kordon", then click the bare map. */
  lemma DismissedPopupScenario()
    ensures var s3 := ClickMap(ClickMarker(MapReady(Initial(), CulturalSites), "kordon", CulturalSites), false, CulturalSites);
            && s3.pending == ["kordon"] && "kordon" in s3.popups
            && var s4 := FireAttach(s3, 0);
               s4.active.None? && s4.popups["kordon"].attached && ClickMap(s4, false, CulturalSites) == s4
  {
    LoadedCatalogue();
    DismissedPopupStays(MapReady(Initial(), CulturalSites), "kordon", CulturalSites);
  }
}
