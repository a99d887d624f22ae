/**
  The station records of the tracker and the pure list computations App.js performs on them:
  the name query, the lookup by catalog number, the ownership merge and the owner filter.
 */
module Catalog {
  import opened Wrappers
  import Seqs
  import Text

  /** The parsed orbital elements; only the catalog number is read outside the engine. */
  datatype SatRec = SatRec(satnum: string)

  /** A station's owner; `None` is the owner of a station no ownership entry matched. */
  type Owner = Option<string>

  datatype Station = Station(name: string, satrec: Option<SatRec>, owner: Owner)

  /** One record of the ownership feed: its `OBJECT_NAME` and `OWNER` fields. */
  datatype SatcatEntry = SatcatEntry(objectName: string, owner: string)

  /** The test `queryStationsByName` applies to each station. */
  predicate NameMatches(st: Station, query: string) {
    Text.IndexOf(Text.Lower(st.name), Text.Lower(query)) > -1
  }

  /** `queryStationsByName`: the stations whose lower-cased name contains the lower-cased query,
      every occurrence kept, in catalog order. */
  function QueryStationsByName(stations: seq<Station>, query: string): (r: seq<Station>)
    ensures forall st :: st in r <==>
      st in stations && Text.Contains(Text.Lower(st.name), Text.Lower(query))
    ensures forall st :: multiset(r)[st] ==
                         if Text.Contains(Text.Lower(st.name), Text.Lower(query))
                         then multiset(stations)[st] else 0
    ensures Seqs.IsSubseq(r, stations)
  {
    Seqs.Filter(stations, st => NameMatches(st, query))
  }

  /** The empty query matches every station. */
  lemma QueryEmptyMatchesAll(stations: seq<Station>)
    ensures QueryStationsByName(stations, "") == stations
  {
    forall st | st in stations ensures NameMatches(st, "") {
      Text.ContainsEmpty(Text.Lower(st.name));
    }
    Seqs.FilterKeepsAll(stations, st => NameMatches(st, ""));
  }

  /** The query ignores the case of its letters. */
  lemma QueryIgnoresCase(stations: seq<Station>, query: string)
    ensures QueryStationsByName(stations, query) == QueryStationsByName(stations, Text.Lower(query))
  {
    Text.LowerIdempotent(query);
    Seqs.FilterCongruent(stations, st => NameMatches(st, query),
                         st => NameMatches(st, Text.Lower(query)));
  }

  /** The test `findStationById` applies: the station has a satrec with that catalog number. */
  predicate HasId(st: Station, id: string) {
    st.satrec.Some? && st.satrec.value.satnum == id
  }

  /** `findStationById`: the first station carrying the catalog number, or nothing. */
  function FindStationById(stations: seq<Station>, id: string): (r: Option<Station>)
    ensures r.None? <==> forall i :: 0 <= i < |stations| ==> !HasId(stations[i], id)
    ensures r.Some? ==>
              exists i :: 0 <= i < |stations| && stations[i] == r.value && HasId(r.value, id) &&
                          forall j :: 0 <= j < i ==> !HasId(stations[j], id)
  {
    Seqs.FindFirst(stations, st => HasId(st, id))
  }

  /** The station `findStationById` finds for one id, as a list of zero or one. */
  function FoundById(stations: seq<Station>, id: string): (r: seq<Station>)
    ensures |r| <= 1
    ensures r == [] <==> forall i :: 0 <= i < |stations| ==> !HasId(stations[i], id)
    ensures forall st :: st in r ==> st in stations && HasId(st, id)
  {
    var found := FindStationById(stations, id);
    if found.Some? then [found.value] else []
  }

  /** The stations the ids of the query string select, in the order of the ids; ids that
      match no station are skipped. */
  function StationsForIds(stations: seq<Station>, ids: seq<string>): (r: seq<Station>)
    ensures |r| <= |ids|
    ensures forall st :: st in r ==> st in stations && exists id :: id in ids && HasId(st, id)
  {
    if ids == [] then []
    else
      StationsForIds(stations, ids[..|ids| - 1]) + FoundById(stations, ids[|ids| - 1])
  }

  /** Looking up one more id appends its station, if there is one. */
  lemma StationsForIdsSnoc(stations: seq<Station>, ids: seq<string>, i: nat)
    requires i < |ids|
    ensures StationsForIds(stations, ids[..i + 1]) == StationsForIds(stations, ids[..i]) + FoundById(stations, ids[i])
  {
    assert ids[..i + 1][..i] == ids[..i];
  }

  /** The same id given twice selects the same station twice. */
  lemma RepeatedIdSelectsTwice(st: Station, id: string)
    requires HasId(st, id)
    ensures StationsForIds([st], [id, id]) == [st, st]
  {
    assert [id, id][..1] == [id];
    assert [id][..0] == [];
  }

  /** The ownership entry the merge uses for a name: the first with that exact `OBJECT_NAME`. */
  function FindEntry(data: seq<SatcatEntry>, name: string): (r: Option<SatcatEntry>)
    ensures r.None? <==> forall k :: 0 <= k < |data| ==> data[k].objectName != name
    ensures r.Some? ==>
              exists k :: 0 <= k < |data| && data[k] == r.value && r.value.objectName == name &&
                          forall j :: 0 <= j < k ==> data[j].objectName != name
  {
    Seqs.FindFirst(data, (e: SatcatEntry) => e.objectName == name)
  }

  /** Entry `k` is the first of the feed whose `OBJECT_NAME` is exactly `name`. */
  predicate FirstEntryFor(data: seq<SatcatEntry>, name: string, k: nat)
    requires k < |data|
  {
    data[k].objectName == name && forall j :: 0 <= j < k ==> data[j].objectName != name
  }

  /** The merge of one station: with a matching entry it gets that entry's owner and keeps
      every other field; without one it is returned unchanged. */
  function MergeOne(st: Station, data: seq<SatcatEntry>): (r: Station)
    ensures r.name == st.name && r.satrec == st.satrec
    ensures (forall k :: 0 <= k < |data| ==> data[k].objectName != st.name) ==> r == st
    ensures forall k :: 0 <= k < |data| && FirstEntryFor(data, st.name, k) ==>
                        r.owner == Some(data[k].owner)
  {
    var m := FindEntry(data, st.name);
    if m.Some? then st.(owner := Some(m.value.owner)) else st
  }

  /** The ownership merge: every station merged with the feed, count and order unchanged. */
  function MergeOwnership(stations: seq<Station>, data: seq<SatcatEntry>): (r: seq<Station>)
    ensures |r| == |stations|
    ensures forall i :: 0 <= i < |r| ==> r[i].name == stations[i].name && r[i].satrec == stations[i].satrec
    ensures forall i :: 0 <= i < |r| ==>
      (forall k :: 0 <= k < |data| ==> data[k].objectName != stations[i].name) ==> r[i] == stations[i]
    ensures forall i, k :: 0 <= i < |r| && 0 <= k < |data| && FirstEntryFor(data, stations[i].name, k) ==>
                           r[i].owner == Some(data[k].owner)
  {
    seq(|stations|, i requires 0 <= i < |stations| => MergeOne(stations[i], data))
  }

  /** Merging the same feed a second time changes nothing more. */
  lemma MergeOwnershipIdempotent(stations: seq<Station>, data: seq<SatcatEntry>)
    ensures MergeOwnership(MergeOwnership(stations, data), data) == MergeOwnership(stations, data)
  {
    var once := MergeOwnership(stations, data);
    var twice := MergeOwnership(once, data);
    forall i | 0 <= i < |once| ensures twice[i] == once[i] {
      assert twice[i] == MergeOne(once[i], data);
    }
  }

  /** The owner filter: the stations whose owner is one of `owners`, in catalog order. */
  function OwnedBy(stations: seq<Station>, owners: seq<Owner>): (r: seq<Station>)
    ensures forall st :: st in r <==> st in stations && st.owner in owners
    ensures forall st :: multiset(r)[st] == if st.owner in owners then multiset(stations)[st] else 0
    ensures Seqs.IsSubseq(r, stations)
    ensures owners == [] ==> r == []
  {
    Seqs.Filter(stations, (st: Station) => st.owner in owners)
  }
}
