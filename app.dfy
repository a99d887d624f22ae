/**
  The App component: its state (`selected`, `stations`, `query`, `queryObjectCount`, the two
  dates and `referenceFrame`) as the fields of a class, each handler as a method that updates
  them, and the engine it drives as an `Engine` whose log records every call.
 */
module App {
  import opened Wrappers
  import opened Catalog
  import opened OrbitEngine
  import Seqs
  import Text
  import Checkboxes

  /** The build-time switch between the real-time clock and the date slider. */
  const UseDateSlider := false

  /** The element set `addCelestrakSets` asks the engine to load. */
  const CatalogUrl := "https://celestrak.org/NORAD/elements/gp.php?GROUP=active&FORMAT=tle"

  /** The frame after a switch: `referenceFrame === 1 ? 2 : 1`. */
  function NextFrame(frame: int): (r: int)
    ensures r == 1 || r == 2
    ensures r != frame
  {
    if frame == 1 then 2 else 1
  }

  /** Switching twice returns to either of the two frames. */
  lemma NextFrameTwice(frame: int)
    requires frame == 1 || frame == 2
    ensures NextFrame(NextFrame(frame)) == frame
  {
  }

  /** A query-string parameter counts only when it is present and non-empty, as in `if (params.ss)`. */
  predicate Present(param: Option<string>) {
    param.Some? && param.value != ""
  }

  /** The stations the `ss` parameter selects: its comma-separated ids looked up in the catalog. */
  function PickedByIds(catalog: seq<Station>, ss: Option<string>): seq<Station> {
    if Present(ss) then StationsForIds(catalog, Text.Split(ss.value, ',')) else []
  }

  /** The stations the `highlight` parameter matches by name. */
  function HighlightMatches(catalog: seq<Station>, highlight: Option<string>): seq<Station> {
    if Present(highlight) then QueryStationsByName(catalog, highlight.value) else []
  }

  class App {
    var selected: seq<Station>
    var stations: seq<Station>
    var query: Option<string>
    var queryObjectCount: nat
    var initialDate: int
    var currentDate: int
    var referenceFrame: int
    const engine: Engine

    /** The engine shows exactly the orbits of `selected`, drawn in `referenceFrame`. */
    predicate InSync()
      reads this, engine
    {
      InSyncWith(engine.log, selected, referenceFrame)
    }

    /** Everything but the selection and the engine is as before. */
    twostate predicate ViewUnchanged()
      reads this
    {
      stations == old(stations) && query == old(query) &&
      queryObjectCount == old(queryObjectCount) && initialDate == old(initialDate) &&
      currentDate == old(currentDate) && referenceFrame == old(referenceFrame)
    }

    /** The initial state and `componentDidMount` with the clock reading `now`: the engine is
        created, given the frame, initialized, asked for the catalog and positioned at `now`.
        The catalog arrives later, through `HandleStationsLoaded`. */
    constructor (now: int)
      ensures selected == [] && stations == [] && query == None && queryObjectCount == 0
      ensures initialDate == now && currentDate == now && referenceFrame == 1
      ensures fresh(engine)
      ensures engine.log == [FrameAssigned(1), Initialized, LoadRequested(CatalogUrl, 0xffffff),
                             PositionsUpdated(now)]
      ensures InSync()
    {
      var frame := if UseDateSlider then 2 else 1;
      var e := new Engine();
      e.AssignReferenceFrame(frame);
      e.Initialize();
      e.LoadLteFileStations(CatalogUrl, 0xffffff);
      e.UpdateAllPositions(now);
      selected, stations, query, queryObjectCount := [], [], None, 0;
      initialDate, currentDate, referenceFrame := now, now, frame;
      engine := e;
      ghost var l1 := [FrameAssigned(frame)];
      ghost var l2 := l1 + [Initialized];
      ghost var l3 := l2 + [LoadRequested(CatalogUrl, 0xffffff)];
      ShownSnoc([], FrameAssigned(frame));
      assert [] + l1 == l1;
      ShownSnoc(l1, Initialized);
      ShownSnoc(l2, LoadRequested(CatalogUrl, 0xffffff));
      ShownSnoc(l3, PositionsUpdated(now));
      assert l3 + [PositionsUpdated(now)] == e.log;
    }

    /** `isSelected`. */
    predicate IsSelected(st: Station)
      reads this
    {
      st in selected
    }

    /** `selectStation`: the station is appended, even when it is already selected, and its
        orbit is added. */
    method SelectStation(st: Station)
      modifies this, engine
      ensures selected == old(selected) + [st]
      ensures engine.log == old(engine.log) + [OrbitAdded(st)]
      ensures ViewUnchanged()
      ensures old(InSync()) ==> InSync()
    {
      selected := selected + [st];
      engine.AddOrbit(st);
      if old(InSync()) {
        SelectKeepsSync(old(engine.log), old(selected), referenceFrame, st);
      }
    }

    /** `deselectStation`: every occurrence of the station leaves the selection and its orbit
        is removed once. */
    method DeselectStation(st: Station)
      modifies this, engine
      ensures selected == Seqs.Remove(old(selected), st)
      ensures engine.log == old(engine.log) + [OrbitRemoved(st)]
      ensures ViewUnchanged()
      ensures old(InSync()) ==> InSync()
    {
      selected := Seqs.Remove(selected, st);
      engine.RemoveOrbit(st);
      if old(InSync()) {
        DeselectKeepsSync(old(engine.log), old(selected), referenceFrame, st);
      }
    }

    /** `toggleSelection`: deselect a selected station, select any other. */
    method ToggleSelection(st: Station)
      modifies this, engine
      ensures selected == Seqs.Toggle(old(selected), st)
      ensures engine.log ==
              old(engine.log) + [if st in old(selected) then OrbitRemoved(st) else OrbitAdded(st)]
      ensures ViewUnchanged()
      ensures old(InSync()) ==> InSync()
    {
      if IsSelected(st) {
        DeselectStation(st);
      } else {
        SelectStation(st);
      }
    }

    /** `handleStationClicked`: a click on a station in the scene toggles it; a click on
        nothing does nothing. */
    method HandleStationClicked(station: Option<Station>)
      modifies this, engine
      ensures station.None? ==> selected == old(selected) && engine.log == old(engine.log)
      ensures station.Some? ==> selected == Seqs.Toggle(old(selected), station.value)
      ensures station.Some? ==>
                engine.log == old(engine.log) + [if station.value in old(selected)
                                                 then OrbitRemoved(station.value)
                                                 else OrbitAdded(station.value)]
      ensures ViewUnchanged()
      ensures old(InSync()) ==> InSync()
    {
      if station.None? {
        return;
      }
      ToggleSelection(station.value);
    }

    /** `handleSearchResultClick`: a click on a search result toggles it. */
    method HandleSearchResultClick(station: Option<Station>)
      modifies this, engine
      ensures station.None? ==> selected == old(selected) && engine.log == old(engine.log)
      ensures station.Some? ==> selected == Seqs.Toggle(old(selected), station.value)
      ensures station.Some? ==>
                engine.log == old(engine.log) + [if station.value in old(selected)
                                                 then OrbitRemoved(station.value)
                                                 else OrbitAdded(station.value)]
      ensures ViewUnchanged()
      ensures old(InSync()) ==> InSync()
    {
      if station.None? {
        return;
      }
      ToggleSelection(station.value);
    }

    /** `handleRemoveSelected`: the remove button of one selected station deselects it. */
    method HandleRemoveSelected(station: Option<Station>)
      modifies this, engine
      ensures station.None? ==> selected == old(selected) && engine.log == old(engine.log)
      ensures station.Some? ==> selected == Seqs.Remove(old(selected), station.value)
      ensures station.Some? ==> engine.log == old(engine.log) + [OrbitRemoved(station.value)]
      ensures ViewUnchanged()
      ensures old(InSync()) ==> InSync()
    {
      if station.None? {
        return;
      }
      DeselectStation(station.value);
    }

    /** `sts.forEach(s => this.engine.removeOrbit(s))`. */
    method RemoveOrbits(sts: seq<Station>)
      modifies engine
      ensures engine.log == old(engine.log) + Removals(sts)
    {
      var i := 0;
      while i < |sts|
        invariant 0 <= i <= |sts|
        invariant engine.log == old(engine.log) + Removals(sts[..i])
      {
        engine.RemoveOrbit(sts[i]);
        assert sts[..i + 1][..i] == sts[..i];
        i := i + 1;
      }
      assert sts[..i] == sts;
    }

    /** `sts.forEach(s => this.engine.addOrbit(s))`. */
    method AddOrbits(sts: seq<Station>)
      modifies engine
      ensures engine.log == old(engine.log) + Additions(sts)
    {
      var i := 0;
      while i < |sts|
        invariant 0 <= i <= |sts|
        invariant engine.log == old(engine.log) + Additions(sts[..i])
      {
        engine.AddOrbit(sts[i]);
        assert sts[..i + 1][..i] == sts[..i];
        i := i + 1;
      }
      assert sts[..i] == sts;
    }

    /** `matches.forEach(st => this.engine.highlightStation(st))`. */
    method HighlightAll(sts: seq<Station>)
      modifies engine
      ensures engine.log == old(engine.log) + Highlights(sts)
    {
      var i := 0;
      while i < |sts|
        invariant 0 <= i <= |sts|
        invariant engine.log == old(engine.log) + Highlights(sts[..i])
      {
        engine.HighlightStation(sts[i]);
        assert sts[..i + 1][..i] == sts[..i];
        i := i + 1;
      }
      assert sts[..i] == sts;
    }

    /** `handleRemoveAllSelected`: one `removeOrbit` per selected station, in order, then an
        empty selection. */
    method HandleRemoveAllSelected()
      modifies this, engine
      ensures selected == []
      ensures engine.log == old(engine.log) + Removals(old(selected))
      ensures ViewUnchanged()
      ensures old(InSync()) ==> InSync()
    {
      RemoveOrbits(selected);
      selected := [];
      if old(InSync()) {
        RemoveAllKeepsSync(old(engine.log), old(selected), referenceFrame);
      }
    }

    /** `handleReferenceFrameChange`: every selected orbit is removed, the frame is switched in
        the state and in the engine, and every selected orbit is drawn again. */
    method HandleReferenceFrameChange()
      modifies this, engine
      ensures referenceFrame == NextFrame(old(referenceFrame))
      ensures engine.log ==
              old(engine.log) + Removals(selected) + [FrameSet(referenceFrame)] + Additions(selected)
      ensures selected == old(selected) && stations == old(stations) && query == old(query)
      ensures queryObjectCount == old(queryObjectCount)
      ensures initialDate == old(initialDate) && currentDate == old(currentDate)
      ensures old(InSync()) ==> InSync()
    {
      RemoveOrbits(selected);
      var newType := NextFrame(referenceFrame);
      referenceFrame := newType;
      engine.SetReferenceFrame(newType);
      AddOrbits(selected);
      if old(InSync()) {
        ReplaceKeepsSync(old(engine.log), selected, old(referenceFrame),
                         [FrameSet(newType)], selected, newType);
      }
    }

    /** `handleOwnerFilterChange` as written: the selection becomes the stations whose owner is
        in the list, and the engine is not told. */
    method HandleOwnerFilterChange(selectedOwners: seq<Owner>)
      modifies this
      ensures selected == OwnedBy(old(stations), selectedOwners)
      ensures engine.log == old(engine.log)
      ensures ViewUnchanged()
    {
      selected := OwnedBy(stations, selectedOwners);
    }

    /** `handleOwnerFilterChange` with the orbit calls a selection change needs: the orbits of
        the old selection are removed and those of the new one are added. */
    method HandleOwnerFilterChangeSynced(selectedOwners: seq<Owner>)
      modifies this, engine
      ensures selected == OwnedBy(old(stations), selectedOwners)
      ensures engine.log == old(engine.log) + Removals(old(selected)) + Additions(selected)
      ensures ViewUnchanged()
      ensures old(InSync()) ==> InSync()
    {
      RemoveOrbits(selected);
      ghost var cleared := engine.log;
      selected := OwnedBy(stations, selectedOwners);
      AddOrbits(selected);
      if old(InSync()) {
        assert cleared + [] == cleared;
        ReplaceKeepsSync(old(engine.log), old(selected), referenceFrame, [], selected, referenceFrame);
      }
    }

    /** A click on an owner's checkbox in the filter panel, which is given
        `handleOwnerFilterChange` as its `onOwnerFilterChange`: the panel reports the clicked
        owner alone and then its new checked owners, and the selection ends as the stations of
        the checked owners. As written, the engine is not told. */
    method HandleOwnerCheckboxClick(panel: Checkboxes.Checkboxes, owner: Owner)
      modifies this, panel
      ensures panel.selectedOwners == Seqs.Toggle(old(panel.selectedOwners), owner)
      ensures panel.filterCalls == old(panel.filterCalls) + [[owner], panel.selectedOwners]
      ensures panel.isAccordionOpen == old(panel.isAccordionOpen)
      ensures selected == OwnedBy(stations, panel.selectedOwners)
      ensures engine.log == old(engine.log)
      ensures ViewUnchanged()
      ensures old(panel.Valid()) ==> panel.Valid()
    {
      panel.ClickOwnerCheckbox(owner);
      HandleOwnerFilterChange([owner]);
      HandleOwnerFilterChange(panel.selectedOwners);
    }

    /** The same click with the corrected `HandleOwnerFilterChangeSynced` as the panel's
        callback: each report also replaces the orbits on screen, so the screen stays in step. */
    method HandleOwnerCheckboxClickSynced(panel: Checkboxes.Checkboxes, owner: Owner)
      modifies this, engine, panel
      ensures panel.selectedOwners == Seqs.Toggle(old(panel.selectedOwners), owner)
      ensures panel.filterCalls == old(panel.filterCalls) + [[owner], panel.selectedOwners]
      ensures panel.isAccordionOpen == old(panel.isAccordionOpen)
      ensures selected == OwnedBy(stations, panel.selectedOwners)
      ensures engine.log == old(engine.log) + Removals(old(selected)) + Additions(OwnedBy(stations, [owner]))
                            + Removals(OwnedBy(stations, [owner])) + Additions(selected)
      ensures ViewUnchanged()
      ensures old(InSync()) ==> InSync()
      ensures old(panel.Valid()) ==> panel.Valid()
    {
      panel.ClickOwnerCheckbox(owner);
      HandleOwnerFilterChangeSynced([owner]);
      HandleOwnerFilterChangeSynced(panel.selectedOwners);
    }

    /** `updateStationsWithOwner`, and the same merge done inline when the ownership feed
        arrives: the catalog is replaced by its merge with the feed. */
    method UpdateStationsWithOwner(data: seq<SatcatEntry>)
      modifies this
      ensures stations == MergeOwnership(old(stations), data)
      ensures selected == old(selected) && query == old(query)
      ensures queryObjectCount == old(queryObjectCount) && referenceFrame == old(referenceFrame)
      ensures initialDate == old(initialDate) && currentDate == old(currentDate)
      ensures engine.log == old(engine.log)
      ensures old(InSync()) ==> InSync()
    {
      stations := MergeOwnership(stations, data);
    }

    /** The body of the `selectedIds.forEach` in `processQuery`: a station found by the id is
        selected, an unknown id does nothing. */
    method SelectById(catalog: seq<Station>, id: string)
      modifies this, engine
      ensures selected == old(selected) + FoundById(catalog, id)
      ensures engine.log == old(engine.log) + Additions(FoundById(catalog, id))
      ensures ViewUnchanged()
    {
      var station := FindStationById(catalog, id);
      if station.Some? {
        SelectStation(station.value);
        assert Additions([station.value]) == [OrbitAdded(station.value)];
      } else {
        assert Additions([]) == [];
      }
    }

    /** `selectedIds.forEach(...)`: the ids are looked up and selected one after the other. */
    method SelectByIds(catalog: seq<Station>, ids: seq<string>)
      modifies this, engine
      ensures selected == old(selected) + StationsForIds(catalog, ids)
      ensures engine.log == old(engine.log) + Additions(StationsForIds(catalog, ids))
      ensures ViewUnchanged()
    {
      var i := 0;
      ghost var found: seq<Station> := [];
      while i < |ids|
        invariant 0 <= i <= |ids|
        invariant found == StationsForIds(catalog, ids[..i])
        invariant selected == old(selected) + found
        invariant engine.log == old(engine.log) + Additions(found)
        invariant ViewUnchanged()
      {
        ghost var step := FoundById(catalog, ids[i]);
        SelectById(catalog, ids[i]);
        StationsForIdsSnoc(catalog, ids, i);
        AdditionsAppend(found, step);
        Seqs.AppendAssoc(old(selected), found, step);
        Seqs.AppendAssoc(old(engine.log), Additions(found), Additions(step));
        found := found + step;
        i := i + 1;
      }
      assert ids[..i] == ids;
    }

    /** `processQuery` on already parsed `ss` and `highlight` parameters: the stations with the
        listed ids are selected one by one (a repeated id selects twice), then the stations
        matching `highlight` are highlighted and counted. */
    method ProcessQuery(catalog: seq<Station>, ss: Option<string>, highlight: Option<string>)
      modifies this, engine
      ensures selected == old(selected) + PickedByIds(catalog, ss)
      ensures engine.log == old(engine.log) + Additions(PickedByIds(catalog, ss))
                            + Highlights(HighlightMatches(catalog, highlight))
      ensures Present(highlight) ==>
                query == Some(highlight.value) &&
                queryObjectCount == |QueryStationsByName(catalog, highlight.value)|
      ensures !Present(highlight) ==> query == old(query) && queryObjectCount == old(queryObjectCount)
      ensures stations == old(stations) && referenceFrame == old(referenceFrame)
      ensures initialDate == old(initialDate) && currentDate == old(currentDate)
      ensures old(InSync()) ==> InSync()
    {
      if Present(ss) {
        var selectedIds := Text.Split(ss.value, ',');
        ghost var wasInSync := InSync();
        SelectByIds(catalog, selectedIds);
        if wasInSync {
          SelectAllKeepsSync(old(engine.log), old(selected), referenceFrame,
                             StationsForIds(catalog, selectedIds));
        }
      } else {
        assert old(engine.log) + Additions([]) == old(engine.log);
        assert old(selected) + [] == old(selected);
      }
      if Present(highlight) {
        ghost var afterSelect := engine.log;
        ghost var wasInSync := InSync();
        var matches := QueryStationsByName(catalog, highlight.value);
        HighlightAll(matches);
        if wasInSync {
          ShownAfterHighlights(afterSelect, matches);
        }
        query := Some(highlight.value);
        queryObjectCount := |matches|;
      } else {
        assert engine.log + Highlights([]) == engine.log;
      }
    }

    /** The first continuation of the catalog load: the loaded stations become the catalog and
        the query string is applied to them. */
    method HandleStationsLoaded(loaded: seq<Station>, ss: Option<string>, highlight: Option<string>)
      modifies this, engine
      ensures stations == loaded
      ensures selected == old(selected) + PickedByIds(loaded, ss)
      ensures engine.log == old(engine.log) + Additions(PickedByIds(loaded, ss))
                            + Highlights(HighlightMatches(loaded, highlight))
      ensures Present(highlight) ==>
                query == Some(highlight.value) &&
                queryObjectCount == |QueryStationsByName(loaded, highlight.value)|
      ensures !Present(highlight) ==> query == old(query) && queryObjectCount == old(queryObjectCount)
      ensures referenceFrame == old(referenceFrame)
      ensures initialDate == old(initialDate) && currentDate == old(currentDate)
      ensures old(InSync()) ==> InSync()
    {
      stations := loaded;
      ProcessQuery(loaded, ss, highlight);
    }

    /** `handleDateChange`: the date is the slider's value when there is an event, `d`
        otherwise, and the engine recomputes every position for it. */
    method HandleDateChange(v: Option<int>, d: int)
      modifies this, engine
      ensures currentDate == if v.Some? then v.value else d
      ensures engine.log == old(engine.log) + [PositionsUpdated(currentDate)]
      ensures selected == old(selected) && stations == old(stations) && query == old(query)
      ensures queryObjectCount == old(queryObjectCount) && referenceFrame == old(referenceFrame)
      ensures initialDate == old(initialDate)
      ensures old(InSync()) ==> InSync()
    {
      var newDate := if v.Some? then v.value else d;
      currentDate := newDate;
      engine.UpdateAllPositions(newDate);
      ShownSnoc(old(engine.log), PositionsUpdated(newDate));
    }

    /** `handleTimer` with the clock reading `now`: without the date slider, the date follows
        the clock. */
    method HandleTimer(now: int)
      modifies this, engine
      ensures currentDate == now
      ensures engine.log == old(engine.log) + [PositionsUpdated(now)]
      ensures selected == old(selected) && stations == old(stations) && query == old(query)
      ensures queryObjectCount == old(queryObjectCount) && referenceFrame == old(referenceFrame)
      ensures initialDate == old(initialDate)
      ensures old(InSync()) ==> InSync()
    {
      if !UseDateSlider {
        HandleDateChange(None, now);
      }
    }
  }

  /** With the filter handler as written, a catalog of one station whose owner is checked ends
      with that station selected and its orbit not on screen. */
  method OwnerFilterLosesSync() returns (inSync: bool)
    ensures !inSync
  {
    var app := new App(0);
    var iss := Station("ISS (ZARYA)", Some(SatRec("25544")), Some("ISS"));
    app.HandleStationsLoaded([iss], None, None);
    app.HandleOwnerFilterChange([Some("ISS")]);
    assert Orbit(iss, 1) in OrbitsOf(app.selected, 1);
    inSync := app.InSync();
  }

  /** The same steps with the corrected handler leave exactly the selected orbit on screen. */
  method OwnerFilterSyncedKeepsSync() returns (inSync: bool)
    ensures inSync
  {
    var app := new App(0);
    var iss := Station("ISS (ZARYA)", Some(SatRec("25544")), Some("ISS"));
    app.HandleStationsLoaded([iss], None, None);
    app.HandleOwnerFilterChangeSynced([Some("ISS")]);
    inSync := app.InSync();
  }
}
