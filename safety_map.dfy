/** The `SafetyMap` component as a state machine: its state hooks are the
    fields, its event handlers the methods, its derived values the functions. */
module SafetyMap {
  import opened Wrappers
  import opened Seqs
  import opened Incidents
  import opened Text

  const PostcodeRequired: string := "Postcode is required"
  const InvalidPostcode: string := "Invalid postcode"

  class SafetyMapState {
    var incidents: seq<Incident>
    var selectedTypes: seq<string>
    var searchQuery: string
    var showHeatmap: bool
    var showReportModal: bool
    var showLoginModal: bool
    var showAdminDashboard: bool
    var isAdmin: bool
    var editingIncident: Option<Incident>
    var draft: Draft
    var postcodeError: string

    /** The shared admin credential pair. */
    const adminUsername: string
    const adminPassword: string

    /** Every postcode handed to the lookup service, oldest first. */
    ghost var geocodeQueries: seq<string>

    /** The dashboard is shown exactly while logged in, ids are unique, no category is ticked twice,
        and every stored and drafted category is one the form's select offers. */
    ghost predicate Valid()
      reads this
    {
      && showAdminDashboard == isAdmin
      && UniqueIds(incidents)
      && NoDup(selectedTypes)
      && (forall inc :: inc in incidents ==> KnownKind(inc.kind))
      && KnownKind(draft.kind)
    }

    /** The initial render: the sample incidents, nothing selected, logged out, heat layer on. */
    constructor (adminUsername: string, adminPassword: string)
      ensures Valid()
      ensures incidents == SampleIncidents && selectedTypes == [] && searchQuery == ""
      ensures showHeatmap && !showReportModal && !showLoginModal && !showAdminDashboard && !isAdmin
      ensures editingIncident == None && draft == BlankDraft && postcodeError == ""
      ensures this.adminUsername == adminUsername && this.adminPassword == adminPassword
      ensures geocodeQueries == []
    {
      incidents := SampleIncidents;
      selectedTypes := [];
      searchQuery := "";
      showHeatmap := true;
      showReportModal := false;
      showLoginModal := false;
      showAdminDashboard := false;
      isAdmin := false;
      editingIncident := None;
      draft := BlankDraft;
      postcodeError := "";
      this.adminUsername := adminUsername;
      this.adminPassword := adminPassword;
      geocodeQueries := [];
      SampleIdsUnique();
    }

    // -------------------------------------------------------------------------
    // Derived views

    /** `filteredIncidents`: what the markers show, in the list's order. */
    function View(): (r: seq<Incident>)
      reads this
      ensures IsSubsequence(r, incidents)
      ensures forall inc :: inc in r <==> inc in incidents && MatchesType(selectedTypes, inc.kind) && SearchHit(inc, searchQuery)
    {
      FilteredOrder(incidents, selectedTypes, searchQuery);
      assert forall inc :: inc in FilteredIncidents(incidents, selectedTypes, searchQuery) <==>
          inc in incidents && MatchesType(selectedTypes, inc.kind) && SearchHit(inc, searchQuery) by {
        forall inc ensures inc in FilteredIncidents(incidents, selectedTypes, searchQuery) <==>
            inc in incidents && MatchesType(selectedTypes, inc.kind) && SearchHit(inc, searchQuery) {
          FilteredMembership(incidents, selectedTypes, searchQuery, inc);
        }
      }
      FilteredIncidents(incidents, selectedTypes, searchQuery)
    }

    /** The heat layer: one point per shown incident while the map is on screen and the layer is on. */
    function HeatLayer(): (pts: seq<HeatPoint>)
      reads this
      ensures showHeatmap && !showAdminDashboard ==> |pts| == |View()|
      ensures showHeatmap && !showAdminDashboard ==> forall i :: 0 <= i < |pts| ==>
        pts[i] == HeatPoint(View()[i].coordinates.lat, View()[i].coordinates.lon, HeatWeight)
      ensures !showHeatmap || showAdminDashboard ==> pts == []
    {
      if showHeatmap && !showAdminDashboard then HeatmapPoints(View()) else []
    }

    // -------------------------------------------------------------------------
    // Filter panel and map toggles

    method ToggleType(t: string)
      requires Valid()
      modifies this`selectedTypes
      ensures Valid()
      ensures selectedTypes == Toggle(old(selectedTypes), t)
    {
      ToggleKeepsNoDup(selectedTypes, t);
      selectedTypes := Toggle(selectedTypes, t);
    }

    method SetSearchQuery(query: string)
      requires Valid()
      modifies this`searchQuery
      ensures Valid()
      ensures searchQuery == query
    {
      searchQuery := query;
    }

    method ToggleHeatmap()
      requires Valid()
      modifies this`showHeatmap
      ensures Valid()
      ensures showHeatmap == !old(showHeatmap)
    {
      showHeatmap := !showHeatmap;
    }

    // -------------------------------------------------------------------------
    // Admin gate

    /** The "Admin Login" button, shown only while logged out. */
    method OpenLoginForm()
      requires Valid() && !isAdmin
      modifies this`showLoginModal
      ensures Valid()
      ensures showLoginModal
    {
      showLoginModal := true;
    }

    method CloseLoginForm()
      requires Valid()
      modifies this`showLoginModal
      ensures Valid()
      ensures !showLoginModal
    {
      showLoginModal := false;
    }

    /** `handleLogin`: the matching pair logs in and opens the dashboard; any other changes nothing. */
    method Login(username: string, password: string) returns (accepted: bool)
      requires Valid()
      modifies this`isAdmin, this`showLoginModal, this`showAdminDashboard
      ensures Valid()
      ensures accepted <==> username == adminUsername && password == adminPassword
      ensures accepted ==> isAdmin && showAdminDashboard && !showLoginModal
      ensures !accepted ==>
        isAdmin == old(isAdmin) && showAdminDashboard == old(showAdminDashboard) && showLoginModal == old(showLoginModal)
    {
      accepted := username == adminUsername && password == adminPassword;
      if accepted {
        isAdmin := true;
        showLoginModal := false;
        showAdminDashboard := true;
      }
    }

    /** `handleLogout`. */
    method Logout()
      requires Valid()
      modifies this`isAdmin, this`showAdminDashboard
      ensures Valid()
      ensures !isAdmin && !showAdminDashboard
    {
      isAdmin := false;
      showAdminDashboard := false;
    }

    // -------------------------------------------------------------------------
    // Dashboard actions (rendered only while the dashboard is shown)

    /** `handleDeleteIncident`. */
    method DeleteIncident(id: int)
      requires Valid() && showAdminDashboard
      modifies this`incidents
      ensures Valid()
      ensures incidents == RemoveById(old(incidents), id)
    {
      RemoveByIdKeepsUniqueIds(incidents, id);
      incidents := RemoveById(incidents, id);
    }

    /** `handleEditIncident`: load a listed incident into the form and open it. */
    method EditIncident(inc: Incident)
      requires Valid() && showAdminDashboard && inc in incidents
      modifies this`editingIncident, this`draft, this`showReportModal
      ensures Valid()
      ensures editingIncident == Some(inc) && showReportModal
      ensures draft == Draft(inc.kind, inc.location, inc.description, inc.coordinates, inc.postcode.GetOr(""))
    {
      editingIncident := Some(inc);
      draft := Draft(inc.kind, inc.location, inc.description, inc.coordinates, inc.postcode.GetOr(""));
      showReportModal := true;
    }

    // -------------------------------------------------------------------------
    // Report workflow

    /** The postcode input: the typed text is stored upper-cased and the error cleared. */
    method EnterPostcode(text: string)
      requires Valid()
      modifies this`draft, this`postcodeError
      ensures Valid()
      ensures draft == old(draft).(postcode := Upper(text)) && postcodeError == ""
    {
      draft := draft.(postcode := Upper(text));
      postcodeError := "";
    }

    /** The category select. */
    method EnterKind(kind: string)
      requires Valid() && KnownKind(kind)
      modifies this`draft
      ensures Valid()
      ensures draft == old(draft).(kind := kind)
    {
      draft := draft.(kind := kind);
    }

    /** The location input. */
    method EnterLocation(location: string)
      requires Valid()
      modifies this`draft
      ensures Valid()
      ensures draft == old(draft).(location := location)
    {
      draft := draft.(location := location);
    }

    /** The description text area. */
    method EnterDescription(description: string)
      requires Valid()
      modifies this`draft
      ensures Valid()
      ensures draft == old(draft).(description := description)
    {
      draft := draft.(description := description);
    }

    /** The "Report Incident" button. */
    method OpenReportForm()
      requires Valid()
      modifies this`showReportModal
      ensures Valid()
      ensures showReportModal
    {
      showReportModal := true;
    }

    /** The form's close button: drop the edit context, blank the form and clear the error. */
    method CancelReport()
      requires Valid()
      modifies this`showReportModal, this`editingIncident, this`draft, this`postcodeError
      ensures Valid()
      ensures !showReportModal && editingIncident == None && draft == BlankDraft && postcodeError == ""
    {
      showReportModal := false;
      editingIncident := None;
      draft := BlankDraft;
      postcodeError := "";
    }

    /** `handleSubmitReport`. `lookup` answers the postcode service's question for one postcode:
        the coordinates, or None when the postcode is unknown or the request failed.
        Creating computes the new id from the current list, which must not be empty. */
    method SubmitReport(lookup: string -> Option<Coord>, today: string)
      requires Valid()
      requires editingIncident.None? && draft.postcode != "" && lookup(draft.postcode).Some? ==> incidents != []
      modifies this`incidents, this`editingIncident, this`draft, this`postcodeError, this`showReportModal
      modifies this`geocodeQueries
      ensures Valid()
      // an empty postcode is refused before the service is asked
      ensures old(draft.postcode) == "" ==>
        && postcodeError == PostcodeRequired
        && geocodeQueries == old(geocodeQueries)
        && incidents == old(incidents) && editingIncident == old(editingIncident)
        && draft == old(draft) && showReportModal == old(showReportModal)
      // otherwise the service is asked exactly once, about the form's postcode
      ensures old(draft.postcode) != "" ==> geocodeQueries == old(geocodeQueries) + [old(draft.postcode)]
      // an unknown postcode leaves the list, the form and the edit context as they were
      ensures old(draft.postcode) != "" && lookup(old(draft.postcode)).None? ==>
        && postcodeError == InvalidPostcode
        && incidents == old(incidents) && editingIncident == old(editingIncident)
        && draft == old(draft) && showReportModal == old(showReportModal)
      // a known postcode commits the edit or the new report, then closes and blanks the form
      ensures old(draft.postcode) != "" && lookup(old(draft.postcode)).Some? ==>
        && postcodeError == ""
        && !showReportModal && draft == BlankDraft && editingIncident == None
        && incidents == (
          if old(editingIncident).Some?
          then ApplyEdit(old(incidents), old(editingIncident).value.id, old(draft), lookup(old(draft.postcode)).value)
          else old(incidents) + [NewIncident(NextId(old(incidents)), old(draft), lookup(old(draft.postcode)).value, today)])
    {
      postcodeError := "";
      if draft.postcode == "" {
        postcodeError := PostcodeRequired;
        return;
      }
      geocodeQueries := geocodeQueries + [draft.postcode];
      var found := lookup(draft.postcode);
      if found.None? {
        postcodeError := InvalidPostcode;
        return;
      }
      var coordinates := found.value;
      match editingIncident {
        case Some(editing) =>
          EditKeepsUniqueIds(incidents, editing.id, draft, coordinates);
          forall x | x in ApplyEdit(incidents, editing.id, draft, coordinates) ensures KnownKind(x.kind) {
            var i :| 0 <= i < |incidents| && ApplyEdit(incidents, editing.id, draft, coordinates)[i] == x;
            assert incidents[i] in incidents;
          }
          incidents := ApplyEdit(incidents, editing.id, draft, coordinates);
          editingIncident := None;
        case None =>
          var id := NextId(incidents);
          CreateKeepsUniqueIds(incidents, draft, coordinates, today);
          incidents := incidents + [NewIncident(id, draft, coordinates, today)];
      }
      showReportModal := false;
      draft := BlankDraft;
    }
  }

  /** A visitor session: logging in, toggling a category twice and reporting at an unknown
      postcode leave the list alone, and the dashboard follows the login state throughout. */
  method AnonymousSession(username: string, password: string)
  {
    var m := new SafetyMapState(username, password);
    m.ToggleType("Harassment");
    m.ToggleType("Harassment");
    assert m.selectedTypes == [];
    m.OpenLoginForm();
    var ok := m.Login(username, password + "x");
    assert !ok && !m.isAdmin && !m.showAdminDashboard;
    m.OpenReportForm();
    m.SubmitReport(pc => None, "2024-03-16");
    assert m.postcodeError == PostcodeRequired && m.geocodeQueries == [];
    assert m.incidents == SampleIncidents;
  }

  /** An admin session: editing incident 1 at a known postcode keeps the list's length,
      the id and the date and takes the looked-up coordinates; deleting twice is deleting once. */
  method AdminSession(username: string, password: string, postcode: string, at: Coord)
    requires postcode != ""
  {
    var m := new SafetyMapState(username, password);
    var ok := m.Login(username, password);
    assert ok && m.showAdminDashboard;
    var first := SampleIncidents[0];
    m.EditIncident(first);
    m.EnterPostcode(postcode);
    var form := m.draft;
    m.SubmitReport(pc => Some(at), "2024-03-16");
    SampleIdsUnique();
    EditChangesOnlyTarget(SampleIncidents, 0, form, at);
    assert |m.incidents| == |SampleIncidents|;
    assert m.incidents[0].id == 1 && m.incidents[0].date == "2024-03-15" && m.incidents[0].coordinates == at;
    assert m.editingIncident == None && m.draft == BlankDraft;
    var before := m.incidents;
    m.DeleteIncident(2);
    m.DeleteIncident(2);
    RemoveByIdOrderAndIdempotence(before, 2);
    assert m.incidents == RemoveById(before, 2);
    m.Logout();
    assert !m.isAdmin && !m.showAdminDashboard;
  }
}
