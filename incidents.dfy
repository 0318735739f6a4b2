/** The value side of the safety map: the incident record, the report form,
    the derived views (filtered list, badge counts, heatmap points) and the
    list updates the handlers apply. */
module Incidents {
  import opened Wrappers
  import opened Seqs
  import opened Text

  /** A latitude/longitude pair. It is carried from the lookup to the map and never computed on. */
  datatype Coord = Coord(lat: real, lon: real)

  /** A reported incident; `kind` is the record's `type` field. */
  datatype Incident = Incident(
    id: int,
    kind: string,
    location: string,
    description: string,
    date: string,
    coordinates: Coord,
    postcode: Option<string>)

  /** The report form (`newIncident`). */
  datatype Draft = Draft(kind: string, location: string, description: string, coordinates: Coord, postcode: string)

  /** One weighted point of the heat layer: latitude, longitude, weight. */
  datatype HeatPoint = HeatPoint(lat: real, lon: real, weight: real)

  const IncidentTypes: seq<string> := [
    "Harassment", "Sexual Assault", "Stalking & Following", "Mugging & Robbery", "Drink Spiking",
    "Physical Assault", "Kidnapping", "Hate Crimes", "Transport Crimes", "Gang Violence"]

  /** Map centre; also the form's placeholder coordinates. */
  const DefaultCenter: Coord := Coord(51.5074, -0.1278)

  const BlankDraft: Draft := Draft("", "", "", DefaultCenter, "")

  /** Every incident weighs the same on the heat layer. */
  const HeatWeight: real := 0.5

  const SampleIncidents: seq<Incident> := [
    Incident(1, "Harassment", "Oxford Street", "Verbal harassment near station", "2024-03-15",
             Coord(51.5152, -0.1418), Some("W1C 1JH")),
    Incident(2, "Stalking & Following", "Piccadilly Circus", "Suspicious following reported", "2024-03-14",
             Coord(51.5099, -0.1337), Some("W1J 9HP")),
    Incident(3, "Transport Crimes", "Victoria Station", "Incident on platform", "2024-03-13",
             Coord(51.4952, -0.1441), Some("SW1V 1JU")),
    Incident(4, "Harassment", "Camden Town", "Street harassment reported", "2024-03-15",
             Coord(51.5390, -0.1426), Some("NW1 7BY")),
    Incident(5, "Physical Assault", "Finsbury Park", "Assault near park entrance", "2024-03-14",
             Coord(51.5642, -0.1066), Some("N4 2NQ"))]

  /** A category the report form's select can hold: one of the listed categories, or its empty "Select type" option. */
  ghost predicate KnownKind(k: string)
  {
    k in IncidentTypes || k == ""
  }

  ghost predicate UniqueIds(incs: seq<Incident>)
  {
    forall i, j :: 0 <= i < j < |incs| ==> incs[i].id != incs[j].id
  }

  // ---------------------------------------------------------------------------
  // Filter and search

  /** No category ticked means every category. */
  predicate MatchesType(selected: seq<string>, kind: string)
    ensures |selected| == 0 ==> MatchesType(selected, kind)
    ensures |selected| > 0 ==> (MatchesType(selected, kind) <==> kind in selected)
  {
    |selected| == 0 || kind in selected
  }

  /** The search text, lower-cased, occurs in the lower-cased location, description or non-empty postcode. */
  predicate MatchesSearch(inc: Incident, query: string)
    ensures query == "" ==> MatchesSearch(inc, query)
  {
    var q := Lower(query);
    assert q == [] ==> Lower(inc.location)[..0] == q;
    Contains(Lower(inc.location), q)
    || Contains(Lower(inc.description), q)
    || (inc.postcode.Some? && inc.postcode.value != "" && Contains(Lower(inc.postcode.value), q))
  }

  /** `filteredIncidents`. */
  function FilteredIncidents(incs: seq<Incident>, selected: seq<string>, query: string): (r: seq<Incident>)
    ensures |r| <= |incs|
    ensures forall inc :: inc in r <==> inc in incs && MatchesType(selected, inc.kind) && MatchesSearch(inc, query)
  {
    Filter(incs, (inc: Incident) => MatchesType(selected, inc.kind) && MatchesSearch(inc, query))
  }

  /** Reference reading of the search: the query occurs, ignoring case, in one of the text fields. */
  ghost predicate SearchHit(inc: Incident, query: string)
  {
    var q := Lower(query);
    IsSubstring(q, Lower(inc.location))
    || IsSubstring(q, Lower(inc.description))
    || (inc.postcode.Some? && IsSubstring(q, Lower(inc.postcode.value)))
  }

  lemma MatchesSearchIsSearchHit(inc: Incident, query: string)
    ensures MatchesSearch(inc, query) <==> SearchHit(inc, query)
  {
    var q := Lower(query);
    ContainsIsSubstring(Lower(inc.location), q);
    ContainsIsSubstring(Lower(inc.description), q);
    if inc.postcode.Some? {
      ContainsIsSubstring(Lower(inc.postcode.value), q);
      if inc.postcode.value == "" && IsSubstring(q, Lower(inc.postcode.value)) {
        // only the empty query occurs in the empty postcode, and it occurs in the location too
        assert |q| == 0;
        assert q <= Lower(inc.location)[0..];
      }
    }
  }

  /** An incident is shown iff its category is selected (or none is) and the search hits it. */
  lemma FilteredMembership(incs: seq<Incident>, selected: seq<string>, query: string, inc: Incident)
    ensures inc in FilteredIncidents(incs, selected, query) <==>
      inc in incs && (|selected| == 0 || inc.kind in selected) && SearchHit(inc, query)
  {
    MatchesSearchIsSearchHit(inc, query);
  }

  /** The view keeps the store's order. */
  lemma FilteredOrder(incs: seq<Incident>, selected: seq<string>, query: string)
    ensures IsSubsequence(FilteredIncidents(incs, selected, query), incs)
  {
    FilterIsSubsequence(incs, (inc: Incident) => MatchesType(selected, inc.kind) && MatchesSearch(inc, query));
  }

  /** An empty search hides nothing; with no category ticked either, the view is the whole list. */
  lemma EmptyQueryMatchesAll(incs: seq<Incident>, selected: seq<string>)
    ensures forall inc :: inc in FilteredIncidents(incs, selected, "") <==> inc in incs && MatchesType(selected, inc.kind)
    ensures FilteredIncidents(incs, [], "") == incs
  {
    forall inc: Incident ensures MatchesSearch(inc, "") {
      assert Lower(inc.location)[..0] == "";
    }
    FilterAll(incs, (inc: Incident) => MatchesType([], inc.kind) && MatchesSearch(inc, ""));
  }

  // ---------------------------------------------------------------------------
  // Badge counts

  /** `getIncidentCountByType`: over the whole list, not the view. */
  function CountByType(incs: seq<Incident>, t: string): (n: nat)
    ensures n <= |incs|
  {
    |Filter(incs, (inc: Incident) => inc.kind == t)|
  }

  /** A badge shows the number of incidents of its category: as many as the view shows
      when only that category is ticked and the search is empty, whatever is selected now. */
  lemma CountByTypeIsTypeOnlyView(incs: seq<Incident>, t: string)
    ensures CountByType(incs, t) == |FilteredIncidents(incs, [t], "")|
  {
    forall inc: Incident ensures MatchesSearch(inc, "") {
      assert Lower(inc.location)[..0] == "";
    }
    FilterAgree(incs, (inc: Incident) => inc.kind == t, (inc: Incident) => MatchesType([t], inc.kind) && MatchesSearch(inc, ""));
  }

  /** A new incident adds one to its own category's badge and nothing to the others. */
  lemma CountByTypeAfterAppend(incs: seq<Incident>, inc: Incident, t: string)
    ensures CountByType(incs + [inc], t) == CountByType(incs, t) + if inc.kind == t then 1 else 0
  {
    FilterAppend(incs, [inc], (x: Incident) => x.kind == t);
  }

  /** The counts shown beside the categories `ts`, in the same order. */
  function CountsOf(incs: seq<Incident>, ts: seq<string>): (r: seq<nat>)
    ensures |r| == |ts|
    ensures forall i :: 0 <= i < |ts| ==> r[i] == CountByType(incs, ts[i])
  {
    if ts == [] then [] else [CountByType(incs, ts[0])] + CountsOf(incs, ts[1..])
  }

  /** The filter panel's badges: one count per listed category. */
  function BadgePanel(incs: seq<Incident>): (r: seq<nat>)
    ensures |r| == |IncidentTypes|
    ensures forall i :: 0 <= i < |IncidentTypes| ==> r[i] == CountByType(incs, IncidentTypes[i])
  {
    CountsOf(incs, IncidentTypes)
  }

  function Sum(xs: seq<nat>): nat
  {
    if xs == [] then 0 else xs[0] + Sum(xs[1..])
  }

  /** The counts of distinct categories add up to the incidents in any of them. */
  lemma {:induction false} CountsOfSum(incs: seq<Incident>, ts: seq<string>)
    requires NoDup(ts)
    ensures Sum(CountsOf(incs, ts)) == |Filter(incs, (inc: Incident) => inc.kind in ts)|
  {
    if ts == [] {
      FilterNone(incs, (inc: Incident) => inc.kind in ts);
    } else {
      var rest := ts[1..];
      assert NoDup(rest) by {
        forall i, j | 0 <= i < j < |rest| ensures rest[i] != rest[j] {
          assert rest[i] == ts[i + 1] && rest[j] == ts[j + 1];
        }
      }
      assert ts[0] !in rest by {
        forall i | 0 <= i < |rest| ensures rest[i] != ts[0] {
          assert rest[i] == ts[i + 1];
        }
      }
      CountsOfSum(incs, rest);
      FilterSplit(incs, (inc: Incident) => inc.kind in ts, (inc: Incident) => inc.kind == ts[0], (inc: Incident) => inc.kind in rest);
    }
  }

  lemma IncidentTypesDistinct()
    ensures NoDup(IncidentTypes)
  {
  }

  /** The badges add up to the number of incidents whose category is one of the listed ones. */
  lemma BadgeTotal(incs: seq<Incident>)
    ensures Sum(BadgePanel(incs)) == |Filter(incs, (inc: Incident) => inc.kind in IncidentTypes)|
    ensures Sum(BadgePanel(incs)) <= |incs|
  {
    IncidentTypesDistinct();
    CountsOfSum(incs, IncidentTypes);
  }

  // ---------------------------------------------------------------------------
  // Heatmap

  /** The heat layer's points: one per incident, in order, at its coordinates, with the fixed weight. */
  function HeatmapPoints(incs: seq<Incident>): (pts: seq<HeatPoint>)
    ensures |pts| == |incs|
    ensures forall i :: 0 <= i < |incs| ==>
      pts[i] == HeatPoint(incs[i].coordinates.lat, incs[i].coordinates.lon, HeatWeight)
  {
    if incs == [] then []
    else [HeatPoint(incs[0].coordinates.lat, incs[0].coordinates.lon, HeatWeight)] + HeatmapPoints(incs[1..])
  }

  // ---------------------------------------------------------------------------
  // Category selection

  /** `sel.filter(u => u !== t)`. */
  function Without(sel: seq<string>, t: string): (r: seq<string>)
    ensures forall u :: u in r <==> u in sel && u != t
    ensures |r| <= |sel|
  {
    Filter(sel, u => u != t)
  }

  /** `toggleType`: drop every copy of a selected category, or append an unselected one. */
  function Toggle(sel: seq<string>, t: string): (r: seq<string>)
    ensures t in r <==> t !in sel
    ensures forall u :: u != t ==> (u in r <==> u in sel)
    ensures t in sel ==> r == Without(sel, t)
    ensures t !in sel ==> r == sel + [t]
  {
    if t in sel then Without(sel, t) else sel + [t]
  }

  /** The other categories stay selected, in the same order. */
  lemma ToggleKeepsOthers(sel: seq<string>, t: string)
    ensures Without(Toggle(sel, t), t) == Without(sel, t)
  {
    if t in sel {
      FilterIdempotent(sel, u => u != t);
    } else {
      FilterAppend(sel, [t], u => u != t);
    }
  }

  lemma ToggleKeepsNoDup(sel: seq<string>, t: string)
    requires NoDup(sel)
    ensures NoDup(Toggle(sel, t))
  {
    if t in sel {
      FilterNoDup(sel, u => u != t);
    }
  }

  /** Toggling twice gives back the same duplicate-free selection; a category that was
      selected comes back at the end. */
  lemma ToggleTwice(sel: seq<string>, t: string)
    requires NoDup(sel)
    ensures NoDup(Toggle(Toggle(sel, t), t))
    ensures forall u :: u in Toggle(Toggle(sel, t), t) <==> u in sel
    ensures t !in sel ==> Toggle(Toggle(sel, t), t) == sel
    ensures t in sel ==> Toggle(Toggle(sel, t), t) == Without(sel, t) + [t]
  {
    ToggleKeepsNoDup(sel, t);
    ToggleKeepsNoDup(Toggle(sel, t), t);
    if t !in sel {
      FilterAppend(sel, [t], u => u != t);
      FilterAll(sel, u => u != t);
    }
  }

  // ---------------------------------------------------------------------------
  // Store updates

  /** `handleDeleteIncident`'s `filter`. */
  function RemoveById(incs: seq<Incident>, id: int): (r: seq<Incident>)
    ensures forall inc :: inc in r <==> inc in incs && inc.id != id
    ensures forall inc: Incident :: inc.id != id ==> multiset(r)[inc] == multiset(incs)[inc]
  {
    Filter(incs, (inc: Incident) => inc.id != id)
  }

  /** Deleting keeps the other incidents in their order, and a second delete changes nothing. */
  lemma RemoveByIdOrderAndIdempotence(incs: seq<Incident>, id: int)
    ensures IsSubsequence(RemoveById(incs, id), incs)
    ensures RemoveById(RemoveById(incs, id), id) == RemoveById(incs, id)
  {
    FilterIsSubsequence(incs, (inc: Incident) => inc.id != id);
    FilterIdempotent(incs, (inc: Incident) => inc.id != id);
  }

  lemma {:induction false} RemoveByIdKeepsUniqueIds(incs: seq<Incident>, id: int)
    requires UniqueIds(incs)
    ensures UniqueIds(RemoveById(incs, id))
  {
    if incs != [] {
      var tail := incs[1..];
      assert UniqueIds(tail) by {
        forall i, j | 0 <= i < j < |tail| ensures tail[i].id != tail[j].id {
          assert tail[i] == incs[i + 1] && tail[j] == incs[j + 1];
        }
      }
      RemoveByIdKeepsUniqueIds(tail, id);
      forall x | x in tail ensures x.id != incs[0].id {
        var k :| 0 <= k < |tail| && tail[k] == x;
        assert x == incs[k + 1];
      }
    }
  }

  /** The largest id in a non-empty list. */
  function MaxId(incs: seq<Incident>): (m: int)
    requires incs != []
    ensures forall inc :: inc in incs ==> inc.id <= m
    ensures exists inc :: inc in incs && inc.id == m
  {
    if |incs| == 1 then incs[0].id
    else
      var rest := MaxId(incs[1..]);
      assert forall inc :: inc in incs <==> inc == incs[0] || inc in incs[1..];
      if incs[0].id >= rest then incs[0].id else rest
  }

  /** `Math.max(...ids) + 1`: above every id in the list, and one above one of them. */
  function NextId(incs: seq<Incident>): (id: int)
    requires incs != []
    ensures forall inc :: inc in incs ==> inc.id < id
    ensures exists inc :: inc in incs && inc.id == id - 1
  {
    MaxId(incs) + 1
  }

  /** The record appended by a successful report: the form's fields, the looked-up coordinates
      and the given id and date. A search for its own postcode finds it. */
  function NewIncident(id: int, d: Draft, c: Coord, date: string): (r: Incident)
    ensures r.id == id && r.date == date && r.coordinates == c
    ensures r.kind == d.kind && r.location == d.location && r.description == d.description
    ensures r.postcode == Some(d.postcode)
    ensures MatchesSearch(r, d.postcode)
  {
    var q := Lower(d.postcode);
    assert q[..|q|] == q;
    Incident(id, d.kind, d.location, d.description, date, c, Some(d.postcode))
  }

  /** `{ ...incident, ...newIncident, coordinates }`: the form's fields over the old record.
      It is the record a new report from the same form would be, with the old id and date. */
  function Edited(inc: Incident, d: Draft, c: Coord): (r: Incident)
    ensures r == NewIncident(inc.id, d, c, inc.date)
    ensures MatchesSearch(r, d.postcode)
  {
    Incident(inc.id, d.kind, d.location, d.description, inc.date, c, Some(d.postcode))
  }

  /** The edit path's `map`: each incident with the given id is replaced by its edited form. */
  function ApplyEdit(incs: seq<Incident>, id: int, d: Draft, c: Coord): (r: seq<Incident>)
    ensures |r| == |incs|
    ensures forall i :: 0 <= i < |incs| ==> r[i] == if incs[i].id == id then Edited(incs[i], d, c) else incs[i]
  {
    if incs == [] then []
    else [if incs[0].id == id then Edited(incs[0], d, c) else incs[0]] + ApplyEdit(incs[1..], id, d, c)
  }

  /** Editing an incident of the list changes that entry only; it keeps its id and date,
      takes the form's fields and the looked-up coordinates, and ids stay unique. */
  lemma EditChangesOnlyTarget(incs: seq<Incident>, k: nat, d: Draft, c: Coord)
    requires UniqueIds(incs) && k < |incs|
    ensures var r := ApplyEdit(incs, incs[k].id, d, c);
      && |r| == |incs|
      && r[k].id == incs[k].id && r[k].date == incs[k].date && r[k].coordinates == c
      && r[k].kind == d.kind && r[k].location == d.location && r[k].description == d.description
      && r[k].postcode == Some(d.postcode)
      && (forall i :: 0 <= i < |incs| && i != k ==> r[i] == incs[i])
      && UniqueIds(r)
  {
  }

  /** The appended record takes a fresh id, so ids stay unique. */
  lemma CreateKeepsUniqueIds(incs: seq<Incident>, d: Draft, c: Coord, date: string)
    requires UniqueIds(incs) && incs != []
    ensures UniqueIds(incs + [NewIncident(NextId(incs), d, c, date)])
  {
    var r := incs + [NewIncident(NextId(incs), d, c, date)];
    forall i, j | 0 <= i < j < |r| ensures r[i].id != r[j].id {
      if j == |incs| {
        assert r[i] == incs[i] && incs[i] in incs;
      } else {
        assert r[i] == incs[i] && r[j] == incs[j];
      }
    }
  }

  lemma EditKeepsUniqueIds(incs: seq<Incident>, id: int, d: Draft, c: Coord)
    requires UniqueIds(incs)
    ensures UniqueIds(ApplyEdit(incs, id, d, c))
  {
  }

  lemma SampleIdsUnique()
    ensures UniqueIds(SampleIncidents)
  {
  }
}
