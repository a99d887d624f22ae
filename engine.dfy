/**
  The scene engine as the application sees it: an object whose `referenceFrame` property
  is assigned and which receives `initialize`, `loadLteFileStations`, `addOrbit`,
  `removeOrbit`, `setReferenceFrame`, `highlightStation` and `updateAllPositions` calls.
  The engine's own code is not part of this model; it is represented by the log of those
  assignments and calls. `Shown` and `CurrentFrame` read that log as the orbits on screen
  and the frame they were drawn in.
 */
module OrbitEngine {
  import opened Catalog

  datatype Event =
    | FrameAssigned(frame: int)
    | Initialized
    | LoadRequested(url: string, color: int)
    | OrbitAdded(station: Station)
    | OrbitRemoved(station: Station)
    | FrameSet(frame: int)
    | StationHighlighted(station: Station)
    | PositionsUpdated(date: int)

  /** An orbit path on screen: whose it is and which reference frame it was computed in. */
  datatype Orbit = Orbit(station: Station, frame: int)

  class Engine {
    /** Every property assignment and call received, oldest first. */
    var log: seq<Event>

    constructor ()
      ensures log == []
    {
      log := [];
    }

    /** `engine.referenceFrame = frame`: a property write, not a call. */
    method AssignReferenceFrame(frame: int)
      modifies this
      ensures log == old(log) + [FrameAssigned(frame)]
    {
      log := log + [FrameAssigned(frame)];
    }

    /** `initialize(element, {onStationClicked})`; the scene element and the click callback
        are not modelled. */
    method Initialize()
      modifies this
      ensures log == old(log) + [Initialized]
    {
      log := log + [Initialized];
    }

    /** `loadLteFileStations(url, color)`; the stations it delivers arrive later, through the
        application's `HandleStationsLoaded`. */
    method LoadLteFileStations(url: string, color: int)
      modifies this
      ensures log == old(log) + [LoadRequested(url, color)]
    {
      log := log + [LoadRequested(url, color)];
    }

    method AddOrbit(st: Station)
      modifies this
      ensures log == old(log) + [OrbitAdded(st)]
    {
      log := log + [OrbitAdded(st)];
    }

    method RemoveOrbit(st: Station)
      modifies this
      ensures log == old(log) + [OrbitRemoved(st)]
    {
      log := log + [OrbitRemoved(st)];
    }

    method SetReferenceFrame(frame: int)
      modifies this
      ensures log == old(log) + [FrameSet(frame)]
    {
      log := log + [FrameSet(frame)];
    }

    method HighlightStation(st: Station)
      modifies this
      ensures log == old(log) + [StationHighlighted(st)]
    {
      log := log + [StationHighlighted(st)];
    }

    method UpdateAllPositions(date: int)
      modifies this
      ensures log == old(log) + [PositionsUpdated(date)]
    {
      log := log + [PositionsUpdated(date)];
    }
  }

  /** The events that change the engine's frame: the property write and `setReferenceFrame`. */
  predicate ChangesFrame(e: Event) {
    e.FrameAssigned? || e.FrameSet?
  }

  /** The frame of the latest frame change, 0 before any. */
  function CurrentFrame(log: seq<Event>): int
    decreases |log|
  {
    if log == [] then 0
    else if ChangesFrame(log[|log| - 1]) then log[|log| - 1].frame
    else CurrentFrame(log[..|log| - 1])
  }

  /** The orbits on screen after the calls of `log`: a call to add draws the station's orbit in
      the current frame, a call to remove takes away every orbit of that station. */
  function Shown(log: seq<Event>): set<Orbit>
    decreases |log|
  {
    if log == [] then {}
    else
      var init := log[..|log| - 1];
      Redraw(Shown(init), CurrentFrame(init), log[|log| - 1])
  }

  /** What one call does to the orbits on screen when the current frame is `frame`. */
  function Redraw(shown: set<Orbit>, frame: int, e: Event): set<Orbit> {
    match e
    case OrbitAdded(st) => shown + {Orbit(st, frame)}
    case OrbitRemoved(st) => set o | o in shown && o.station != st
    case _ => shown
  }

  /** The orbits that belong on screen for a selection in a frame. */
  function OrbitsOf(selected: seq<Station>, frame: int): set<Orbit> {
    set st | st in selected :: Orbit(st, frame)
  }

  /** The engine shows exactly the orbits of the selection, all computed in `frame`, and its
      current frame is `frame`: no orbit is missing, extra or stale. */
  predicate InSyncWith(log: seq<Event>, selected: seq<Station>, frame: int) {
    CurrentFrame(log) == frame && Shown(log) == OrbitsOf(selected, frame)
  }

  /** One `removeOrbit` call per station, in order. */
  function Removals(stations: seq<Station>): (r: seq<Event>)
    ensures |r| == |stations|
    ensures forall i :: 0 <= i < |r| ==> r[i] == OrbitRemoved(stations[i])
  {
    if stations == [] then [] else Removals(stations[..|stations| - 1]) + [OrbitRemoved(stations[|stations| - 1])]
  }

  /** One `addOrbit` call per station, in order. */
  function Additions(stations: seq<Station>): (r: seq<Event>)
    ensures |r| == |stations|
    ensures forall i :: 0 <= i < |r| ==> r[i] == OrbitAdded(stations[i])
  {
    if stations == [] then [] else Additions(stations[..|stations| - 1]) + [OrbitAdded(stations[|stations| - 1])]
  }

  /** One `highlightStation` call per station, in order. */
  function Highlights(stations: seq<Station>): (r: seq<Event>)
    ensures |r| == |stations|
    ensures forall i :: 0 <= i < |r| ==> r[i] == StationHighlighted(stations[i])
  {
    if stations == [] then [] else Highlights(stations[..|stations| - 1]) + [StationHighlighted(stations[|stations| - 1])]
  }

  lemma {:induction false} AdditionsAppend(a: seq<Station>, b: seq<Station>)
    ensures Additions(a + b) == Additions(a) + Additions(b)
  {
    var r := Additions(a + b);
    assert |r| == |Additions(a) + Additions(b)|;
    forall i | 0 <= i < |r| ensures r[i] == (Additions(a) + Additions(b))[i] {
      if i < |a| {
        assert (a + b)[i] == a[i];
      } else {
        assert (a + b)[i] == b[i - |a|];
      }
    }
  }

  /** The effect of one more call on the screen and on the frame. */
  lemma ShownSnoc(log: seq<Event>, e: Event)
    ensures CurrentFrame(log + [e]) == if ChangesFrame(e) then e.frame else CurrentFrame(log)
    ensures Shown(log + [e]) == Redraw(Shown(log), CurrentFrame(log), e)
  {
    assert (log + [e])[..|log|] == log;
  }

  /** Removing the orbits of `stations` one after the other leaves every other orbit. */
  lemma {:induction false} ShownAfterRemovals(log: seq<Event>, stations: seq<Station>)
    ensures CurrentFrame(log + Removals(stations)) == CurrentFrame(log)
    ensures Shown(log + Removals(stations)) == set o | o in Shown(log) && o.station !in stations
    decreases |stations|
  {
    if stations != [] {
      var init, last := stations[..|stations| - 1], stations[|stations| - 1];
      ShownAfterRemovals(log, init);
      assert log + Removals(stations) == (log + Removals(init)) + [OrbitRemoved(last)];
      ShownSnoc(log + Removals(init), OrbitRemoved(last));
      assert forall st :: st in stations <==> st in init || st == last;
    } else {
      assert log + Removals(stations) == log;
    }
  }

  /** Adding the orbits of `stations` one after the other draws each in the current frame. */
  lemma {:induction false} ShownAfterAdditions(log: seq<Event>, stations: seq<Station>)
    ensures CurrentFrame(log + Additions(stations)) == CurrentFrame(log)
    ensures Shown(log + Additions(stations)) == Shown(log) + OrbitsOf(stations, CurrentFrame(log))
    decreases |stations|
  {
    if stations != [] {
      var init, last := stations[..|stations| - 1], stations[|stations| - 1];
      ShownAfterAdditions(log, init);
      assert log + Additions(stations) == (log + Additions(init)) + [OrbitAdded(last)];
      ShownSnoc(log + Additions(init), OrbitAdded(last));
      assert forall st :: st in stations <==> st in init || st == last;
    } else {
      assert log + Additions(stations) == log;
    }
  }

  /** Highlighting changes neither the orbits on screen nor the frame. */
  lemma {:induction false} ShownAfterHighlights(log: seq<Event>, stations: seq<Station>)
    ensures CurrentFrame(log + Highlights(stations)) == CurrentFrame(log)
    ensures Shown(log + Highlights(stations)) == Shown(log)
    decreases |stations|
  {
    if stations != [] {
      var init, last := stations[..|stations| - 1], stations[|stations| - 1];
      ShownAfterHighlights(log, init);
      assert log + Highlights(stations) == (log + Highlights(init)) + [StationHighlighted(last)];
      ShownSnoc(log + Highlights(init), StationHighlighted(last));
    } else {
      assert log + Highlights(stations) == log;
    }
  }

  /** `selectStation` keeps the screen in step with the selection. */
  lemma SelectKeepsSync(log: seq<Event>, selected: seq<Station>, frame: int, st: Station)
    requires InSyncWith(log, selected, frame)
    ensures InSyncWith(log + [OrbitAdded(st)], selected + [st], frame)
  {
    ShownSnoc(log, OrbitAdded(st));
    assert forall s :: s in selected + [st] <==> s in selected || s == st;
  }

  /** Selecting several stations one after the other keeps the screen in step. */
  lemma SelectAllKeepsSync(log: seq<Event>, selected: seq<Station>, frame: int, more: seq<Station>)
    requires InSyncWith(log, selected, frame)
    ensures InSyncWith(log + Additions(more), selected + more, frame)
  {
    ShownAfterAdditions(log, more);
    assert forall s :: s in selected + more <==> s in selected || s in more;
  }

  /** `deselectStation` keeps the screen in step with the selection. */
  lemma DeselectKeepsSync(log: seq<Event>, selected: seq<Station>, frame: int, st: Station)
    requires InSyncWith(log, selected, frame)
    ensures InSyncWith(log + [OrbitRemoved(st)], Seqs.Remove(selected, st), frame)
  {
    ShownSnoc(log, OrbitRemoved(st));
  }

  /** Removing the orbits of the whole selection clears the screen. */
  lemma RemoveAllKeepsSync(log: seq<Event>, selected: seq<Station>, frame: int)
    requires InSyncWith(log, selected, frame)
    ensures InSyncWith(log + Removals(selected), [], frame)
  {
    ShownAfterRemovals(log, selected);
  }

  /** Taking every orbit of the old selection away, setting a frame and drawing the orbits of
      the new selection leaves exactly the new selection's orbits, all in the new frame. */
  lemma ReplaceKeepsSync(log: seq<Event>, before: seq<Station>, frame: int,
                         middle: seq<Event>, after: seq<Station>, frame': int)
    requires InSyncWith(log, before, frame)
    requires middle == [] || middle == [FrameSet(frame')]
    requires middle == [] ==> frame' == frame
    ensures InSyncWith(log + Removals(before) + middle + Additions(after), after, frame')
  {
    var cleared := log + Removals(before);
    ShownAfterRemovals(log, before);
    assert Shown(cleared) == {};
    if middle == [] {
      assert cleared + middle == cleared;
    } else {
      ShownSnoc(cleared, FrameSet(frame'));
    }
    ShownAfterAdditions(cleared + middle, after);
  }

  /** When the engine is in step with the selection, no orbit on screen is stale. */
  lemma InSyncNoStaleOrbit(log: seq<Event>, selected: seq<Station>, frame: int)
    requires InSyncWith(log, selected, frame)
    ensures forall o :: o in Shown(log) ==> o.frame == CurrentFrame(log) && o.station in selected
  {
  }
}
