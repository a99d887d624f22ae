/**
  The owner filter panel: an accordion holding one checkbox per distinct owner of the
  stations, and the list of checked owners it reports to the application through its
  `onOwnerFilterChange` callback. The callback is represented by the log of the lists it
  was given.
 */
module Checkboxes {
  import opened Catalog
  import Seqs

  /** `stations.map(station => station.owner)`: the owner at each index, so the owners that
      occur are exactly the owners of the stations. */
  function Owners(stations: seq<Station>): (r: seq<Owner>)
    ensures |r| == |stations|
    ensures forall i :: 0 <= i < |r| ==> r[i] == stations[i].owner
    ensures forall o :: o in r <==> exists st :: st in stations && st.owner == o
  {
    var r := seq(|stations|, i requires 0 <= i < |stations| => stations[i].owner);
    assert forall o :: o in r <==> exists st :: st in stations && st.owner == o by {
      forall o | o in r ensures exists st :: st in stations && st.owner == o {
        var i :| 0 <= i < |r| && r[i] == o;
        assert stations[i] in stations;
      }
      forall st | st in stations ensures st.owner in r {
        var i :| 0 <= i < |stations| && stations[i] == st;
        assert r[i] == st.owner;
      }
    }
    r
  }

  /** `[...new Set(stations.map(station => station.owner))]`: every owner once, in the order in
      which the stations first name it. */
  function UniqueOwners(stations: seq<Station>): (r: seq<Owner>)
    ensures Seqs.NoDup(r)
    ensures forall o :: o in r <==> o in Owners(stations)
    ensures forall o :: o in r <==> exists st :: st in stations && st.owner == o
    ensures forall i, j :: 0 <= i < j < |r| ==>
              Seqs.FirstIndex(Owners(stations), r[i]) < Seqs.FirstIndex(Owners(stations), r[j])
  {
    Seqs.Dedup(Owners(stations))
  }

  /** A catalog in which every station has the same owner shows a single checkbox. */
  lemma SingleOwnerSingleCheckbox(stations: seq<Station>, o: Owner)
    requires stations != []
    requires forall st :: st in stations ==> st.owner == o
    ensures UniqueOwners(stations) == [o]
  {
    var r := UniqueOwners(stations);
    assert stations[0] in stations;
    assert o in r;
    assert forall i :: 0 <= i < |r| ==> r[i] == o by {
      forall i | 0 <= i < |r| ensures r[i] == o {
        assert r[i] in r;
      }
    }
    assert r[0] == r[|r| - 1];
  }

  class Checkboxes {
    var isAccordionOpen: bool
    /** The checked owners, in the order they were checked. */
    var selectedOwners: seq<Owner>
    /** Every list passed to `onOwnerFilterChange`, oldest first. */
    var filterCalls: seq<seq<Owner>>

    /** The panel's invariant: no owner is checked twice, and the application was last told
        exactly the owners that are checked (nothing was reported while none are). */
    predicate Valid()
      reads this
    {
      Seqs.NoDup(selectedOwners) &&
      (filterCalls == [] ==> selectedOwners == []) &&
      (filterCalls != [] ==> filterCalls[|filterCalls| - 1] == selectedOwners)
    }

    /** The initial state: the accordion is closed and nothing is checked. */
    constructor ()
      ensures !isAccordionOpen && selectedOwners == [] && filterCalls == []
      ensures Valid()
    {
      isAccordionOpen := false;
      selectedOwners := [];
      filterCalls := [];
    }

    /** `checked={selectedOwners.includes(owner)}`: the owner occurs in the checked list, and
        while the panel is valid it occurs there exactly once. */
    function IsChecked(owner: Owner): (r: bool)
      reads this
      ensures r <==> multiset(selectedOwners)[owner] > 0
      ensures r && Seqs.NoDup(selectedOwners) ==> multiset(selectedOwners)[owner] == 1
    {
      if owner in selectedOwners && Seqs.NoDup(selectedOwners) then
        Seqs.NoDupCountOne(selectedOwners, owner);
        true
      else
        owner in selectedOwners
    }

    /** `toggleAccordion`: the accordion opens or closes, nothing else changes. */
    method ToggleAccordion()
      modifies this
      ensures isAccordionOpen == !old(isAccordionOpen)
      ensures selectedOwners == old(selectedOwners) && filterCalls == old(filterCalls)
      ensures old(Valid()) ==> Valid()
    {
      isAccordionOpen := !isAccordionOpen;
    }

    /** `handleOwnerChange`: the owner is unchecked if it was checked and checked (at the end)
        if it was not, and the new list of checked owners is reported. */
    method HandleOwnerChange(owner: Owner)
      modifies this
      ensures selectedOwners == Seqs.Toggle(old(selectedOwners), owner)
      ensures filterCalls == old(filterCalls) + [selectedOwners]
      ensures isAccordionOpen == old(isAccordionOpen)
      ensures IsChecked(owner) <==> !old(IsChecked(owner))
      ensures forall o :: o != owner ==> (o in selectedOwners <==> o in old(selectedOwners))
      ensures Seqs.NoDup(old(selectedOwners)) ==> Valid()
    {
      if Seqs.NoDup(selectedOwners) {
        Seqs.ToggleNoDup(selectedOwners, owner);
      }
      selectedOwners := Seqs.Toggle(selectedOwners, owner);
      filterCalls := filterCalls + [selectedOwners];
      forall o | o != owner ensures o in selectedOwners <==> o in old(selectedOwners) {
        assert multiset(selectedOwners)[o] == multiset(old(selectedOwners))[o];
      }
    }

    /** A click on an owner's checkbox: its `onClick` first reports the clicked owner alone,
        then its `onChange` runs `handleOwnerChange`, whose report comes last. */
    method ClickOwnerCheckbox(owner: Owner)
      modifies this
      ensures selectedOwners == Seqs.Toggle(old(selectedOwners), owner)
      ensures filterCalls == old(filterCalls) + [[owner], selectedOwners]
      ensures isAccordionOpen == old(isAccordionOpen)
      ensures old(Valid()) ==> Valid()
    {
      filterCalls := filterCalls + [[owner]];
      HandleOwnerChange(owner);
    }
  }
}
