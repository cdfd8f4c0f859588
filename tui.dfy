/**
 * The state of `PolvonApp` in `polvon/tui.py`: the listed units, the search
 * query, the "all units" switch and the filtered view the table shows, with
 * the pure computations behind the table rows, the information bar and the
 * selection.
 */
module Tui {
  import opened Wrappers
  import opened Strings
  import opened Services

  // ---------------------------------------------------------------------
  // The search filter
  // ---------------------------------------------------------------------

  /**
   * The filter's test of one record against an already lower-cased query:
   * the query occurs in the lower-cased name, or the record has a non-empty
   * description in whose lower-cased form it occurs.
   */
  predicate Matches(s: Service, query: string): (matched: bool)
    ensures query == "" ==> matched
    ensures matched ==> |query| <= |s.name| || (s.description.Some? && |query| <= |s.description.value|)
  {
    ContainsLength(Lower(s.name), query);
    ContainsLength(Lower(if s.description.Some? then s.description.value else ""), query);
    || Contains(Lower(s.name), query)
    || (s.description.Some? && s.description.value != "" && Contains(Lower(s.description.value), query))
  }

  /** The records that match, in their original order. */
  function Matching(services: seq<Service>, query: string): (kept: seq<Service>)
    ensures |kept| <= |services|
    ensures forall k :: 0 <= k < |kept| ==> Matches(kept[k], query) && kept[k] in services
  {
    if services == [] then []
    else (if Matches(services[0], query) then [services[0]] else []) + Matching(services[1..], query)
  }

  /**
   * `filter_services`: every record while the query is empty, and otherwise
   * the records matching the lower-cased query.
   */
  function FilterView(services: seq<Service>, query: string): (view: seq<Service>)
    ensures |view| <= |services|
    ensures forall k :: 0 <= k < |view| ==> view[k] in services
    ensures query == "" ==> view == services
  {
    if query == "" then services else Matching(services, Lower(query))
  }

  /** A record is kept exactly when it is listed and matches. */
  lemma {:induction false} MatchingMembership(services: seq<Service>, query: string, s: Service)
    ensures s in Matching(services, query) <==> s in services && Matches(s, query)
    decreases |services|
  {
    if services != [] {
      MatchingMembership(services[1..], query, s);
      assert services == [services[0]] + services[1..];
    }
  }

  /** With a non-empty query, the view holds exactly the listed records that match it. */
  lemma FilterViewMembership(services: seq<Service>, query: string, s: Service)
    requires query != ""
    ensures s in FilterView(services, query) <==> s in services && Matches(s, Lower(query))
  {
    MatchingMembership(services, Lower(query), s);
  }

  /** Each position of `idx` moved one place to the right. */
  function Shifted(idx: seq<nat>): (r: seq<nat>)
    ensures |r| == |idx|
    ensures forall k :: 0 <= k < |idx| ==> r[k] == idx[k] + 1
  {
    seq(|idx|, k requires 0 <= k < |idx| => idx[k] + 1)
  }

  /** The positions of the matching records, front to back. */
  function MatchIndices(services: seq<Service>, query: string): (idx: seq<nat>)
    ensures forall k :: 0 <= k < |idx| ==> idx[k] < |services|
  {
    if services == [] then []
    else (if Matches(services[0], query) then [0] else []) + Shifted(MatchIndices(services[1..], query))
  }

  /**
   * The filtered list is an ordered subsequence of the listing: its k-th
   * record is the listing's record at the k-th matching position, the
   * positions increase, and a position is used exactly when its record
   * matches.
   */
  lemma MatchingIsOrderedSubsequence(services: seq<Service>, query: string)
    ensures var kept, idx := Matching(services, query), MatchIndices(services, query);
      && |idx| == |kept|
      && (forall k :: 0 <= k < |idx| ==> kept[k] == services[idx[k]])
      && Increasing(idx)
      && (forall i :: 0 <= i < |services| ==> (Matches(services[i], query) <==> i in idx))
  {
    MatchIndicesPick(services, query);
    MatchIndicesIncrease(services, query);
    MatchIndicesExact(services, query);
  }

  /** The k-th kept record sits at the k-th matching position. */
  lemma {:induction false} MatchIndicesPick(services: seq<Service>, query: string)
    ensures var kept, idx := Matching(services, query), MatchIndices(services, query);
      |idx| == |kept| && forall k :: 0 <= k < |idx| ==> kept[k] == services[idx[k]]
    decreases |services|
  {
    if services != [] {
      var tail := services[1..];
      MatchIndicesPick(tail, query);
      var m := Matches(services[0], query);
      var rest, restIdx := Matching(tail, query), MatchIndices(tail, query);
      assert Matching(services, query) == (if m then [services[0]] else []) + rest;
      assert MatchIndices(services, query) == (if m then [0] else []) + Shifted(restIdx);
      PickStep(services, m, rest, restIdx);
    }
  }

  /** One step of `MatchIndicesPick`: prepending the first record's decision keeps positions and records aligned. */
  lemma PickStep(services: seq<Service>, m: bool, rest: seq<Service>, restIdx: seq<nat>)
    requires services != [] && |restIdx| == |rest|
    requires forall k :: 0 <= k < |restIdx| ==> restIdx[k] < |services| - 1 && rest[k] == services[1..][restIdx[k]]
    ensures var kept, idx := (if m then [services[0]] else []) + rest, (if m then [0] else []) + Shifted(restIdx);
      |idx| == |kept| && forall k :: 0 <= k < |idx| ==> kept[k] == services[idx[k]]
  {
    var head: seq<nat> := if m then [0] else [];
    var kept, idx := (if m then [services[0]] else []) + rest, head + Shifted(restIdx);
    forall k | 0 <= k < |idx|
      ensures kept[k] == services[idx[k]]
    {
      if k >= |head| {
        assert idx[k] == restIdx[k - |head|] + 1;
        assert kept[k] == rest[k - |head|];
      }
    }
  }

  /** Each position is smaller than the ones after it. */
  predicate Increasing(idx: seq<nat>) {
    forall k, l :: 0 <= k < l < |idx| ==> idx[k] < idx[l]
  }

  /** The matching positions increase. */
  lemma {:induction false} MatchIndicesIncrease(services: seq<Service>, query: string)
    ensures Increasing(MatchIndices(services, query))
    decreases |services|
  {
    if services != [] {
      MatchIndicesIncrease(services[1..], query);
      var head: seq<nat> := if Matches(services[0], query) then [0] else [];
      assert MatchIndices(services, query) == head + Shifted(MatchIndices(services[1..], query));
      IncreaseStep(head, MatchIndices(services[1..], query));
    }
  }

  /** Shifting increasing positions and putting an optional 0 in front keeps them increasing. */
  lemma IncreaseStep(head: seq<nat>, restIdx: seq<nat>)
    requires head == [] || head == [0]
    requires Increasing(restIdx)
    ensures Increasing(head + Shifted(restIdx))
  {
    var idx := head + Shifted(restIdx);
    forall k, l | 0 <= k < l < |idx|
      ensures idx[k] < idx[l]
    {
      assert idx[l] == restIdx[l - |head|] + 1;
      if k >= |head| {
        assert idx[k] == restIdx[k - |head|] + 1;
      }
    }
  }

  /** A shifted position list, behind an optional leading 0, holds `i` exactly when the list held `i - 1`. */
  lemma ShiftedMembership(head: seq<nat>, restIdx: seq<nat>, i: nat)
    requires head == [] || head == [0]
    ensures i == 0 ==> (i in head + Shifted(restIdx) <==> head == [0])
    ensures i > 0 ==> (i in head + Shifted(restIdx) <==> i - 1 in restIdx)
  {
    var idx := head + Shifted(restIdx);
    if i > 0 && i - 1 in restIdx {
      var k :| 0 <= k < |restIdx| && restIdx[k] == i - 1;
      assert idx[|head| + k] == i;
    }
    if i in idx {
      var k :| 0 <= k < |idx| && idx[k] == i;
      if k >= |head| {
        assert restIdx[k - |head|] == i - 1;
      }
    }
  }

  /** A position is listed exactly when its record matches. */
  lemma {:induction false} MatchIndicesExact(services: seq<Service>, query: string)
    ensures var idx := MatchIndices(services, query);
      forall i :: 0 <= i < |services| ==> (Matches(services[i], query) <==> i in idx)
    decreases |services|
  {
    if services != [] {
      var tail := services[1..];
      MatchIndicesExact(tail, query);
      var restIdx := MatchIndices(tail, query);
      var head: seq<nat> := if Matches(services[0], query) then [0] else [];
      assert MatchIndices(services, query) == head + Shifted(restIdx);
      forall i | 0 <= i < |services|
        ensures Matches(services[i], query) <==> i in head + Shifted(restIdx)
      {
        ShiftedMembership(head, restIdx, i);
        if i > 0 {
          assert services[i] == tail[i - 1];
        }
      }
    }
  }

  /** Filtering one record keeps it exactly when it matches. */
  lemma MatchingOne(s: Service, query: string)
    ensures Matching([s], query) == if Matches(s, query) then [s] else []
  {
    assert [s][1..] == [];
  }

  /** Filtering a concatenated listing filters each part. */
  lemma {:induction false} MatchingAppend(a: seq<Service>, b: seq<Service>, query: string)
    ensures Matching(a + b, query) == Matching(a, query) + Matching(b, query)
    decreases |a|
  {
    if a != [] {
      assert (a + b)[1..] == a[1..] + b;
      MatchingAppend(a[1..], b, query);
    } else {
      assert a + b == b;
    }
  }

  /** Filtering the filtered list again changes nothing. */
  lemma {:induction false} MatchingIdempotent(services: seq<Service>, query: string)
    ensures Matching(Matching(services, query), query) == Matching(services, query)
    decreases |services|
  {
    if services != [] {
      var head := if Matches(services[0], query) then [services[0]] else [];
      MatchingIdempotent(services[1..], query);
      MatchingAppend(head, Matching(services[1..], query), query);
    }
  }

  /** Re-running `filter_services` with the same query leaves the view as it is. */
  lemma FilterViewIdempotent(services: seq<Service>, query: string)
    ensures FilterView(FilterView(services, query), query) == FilterView(services, query)
  {
    if query != "" {
      MatchingIdempotent(services, Lower(query));
    }
  }

  /** Queries that lower-case alike select the same records, so the search ignores letter case. */
  lemma FilterViewIgnoresCase(services: seq<Service>, q1: string, q2: string)
    requires Lower(q1) == Lower(q2)
    ensures FilterView(services, q1) == FilterView(services, q2)
  {
    assert |q1| == |Lower(q1)| == |Lower(q2)| == |q2|;
  }

  /** A record without a description matches through its name alone, and always yields an answer. */
  lemma NoDescriptionMatchesByName(s: Service, query: string)
    requires s.description.None?
    ensures Matches(s, query) <==> Contains(Lower(s.name), query)
  {
  }

  /** A record that matches a query also matches every substring of it. */
  lemma MatchesSubstring(s: Service, longer: string, shorter: string)
    requires Contains(longer, shorter) && Matches(s, longer)
    ensures Matches(s, shorter)
  {
    if Contains(Lower(s.name), longer) {
      ContainsTransitive(Lower(s.name), longer, shorter);
    } else {
      ContainsTransitive(Lower(s.description.value), longer, shorter);
    }
  }

  /** Filtering by a query is filtering by any substring of it first. */
  lemma {:induction false} MatchingNarrows(services: seq<Service>, longer: string, shorter: string)
    requires Contains(longer, shorter)
    ensures Matching(services, longer) == Matching(Matching(services, shorter), longer)
    decreases |services|
  {
    if services != [] {
      var head := if Matches(services[0], shorter) then [services[0]] else [];
      if Matches(services[0], longer) {
        MatchesSubstring(services[0], longer, shorter);
      }
      MatchingNarrows(services[1..], longer, shorter);
      MatchingAppend(head, Matching(services[1..], shorter), longer);
    }
  }

  /**
   * Extending the search text narrows the view: the view of the longer
   * query is the view of the shorter one, filtered again.
   */
  lemma FilterViewNarrows(services: seq<Service>, shorter: string, longer: string)
    requires Contains(Lower(longer), Lower(shorter))
    ensures FilterView(services, longer) == FilterView(FilterView(services, shorter), longer)
  {
    if shorter != "" && longer != "" {
      MatchingNarrows(services, Lower(longer), Lower(shorter));
    }
  }

  // ---------------------------------------------------------------------
  // The information bar
  // ---------------------------------------------------------------------

  /** The number of records in a given active state (`sum(1 for s in ... if ...)`). */
  function CountState(services: seq<Service>, state: ActiveState): (n: nat)
    ensures n <= |services|
  {
    if services == [] then 0
    else (if services[0].activeState == state then 1 else 0) + CountState(services[1..], state)
  }

  /** Counting distributes over concatenation. */
  lemma {:induction false} CountStateAppend(a: seq<Service>, b: seq<Service>, state: ActiveState)
    ensures CountState(a + b, state) == CountState(a, state) + CountState(b, state)
    decreases |a|
  {
    if a != [] {
      assert (a + b)[1..] == a[1..] + b;
      CountStateAppend(a[1..], b, state);
    } else {
      assert a + b == b;
    }
  }

  /** No record is counted in two different states. */
  lemma {:induction false} CountTwoStates(services: seq<Service>, s1: ActiveState, s2: ActiveState)
    requires s1 != s2
    ensures CountState(services, s1) + CountState(services, s2) <= |services|
    decreases |services|
  {
    if services != [] {
      CountTwoStates(services[1..], s1, s2);
    }
  }

  /** What the information bar reports. */
  datatype InfoBar = InfoBar(total: nat, active: nat, failed: nat, mode: string, filtered: Option<nat>)

  /**
   * `update_info_bar`: totals over all listed records (not over the filtered
   * view), the listing mode, and the filtered count only while a query is
   * set.
   */
  function InfoBarOf(services: seq<Service>, filtered: seq<Service>, query: string, showAll: bool): (bar: InfoBar)
    ensures bar.total == |services|
    ensures bar.active == CountState(services, Active) && bar.failed == CountState(services, Failed)
    ensures bar.active + bar.failed <= bar.total
    ensures bar.mode == if showAll then "all services" else "active services"
    ensures bar.filtered.Some? <==> query != ""
    ensures bar.filtered.Some? ==> bar.filtered.value == |filtered|
  {
    CountTwoStates(services, Active, Failed);
    InfoBar(
      |services|,
      CountState(services, Active),
      CountState(services, Failed),
      if showAll then "all services" else "active services",
      if query != "" then Some(|filtered|) else None)
  }

  // ---------------------------------------------------------------------
  // Table rows
  // ---------------------------------------------------------------------

  /** The widest description a row shows untruncated. */
  const DescriptionWidth := 60

  /** The description cell: long texts keep their first 60 characters and gain "...". */
  function Truncate(d: string): (t: string)
    ensures |d| <= DescriptionWidth ==> t == d
    ensures |d| > DescriptionWidth ==> t == d[..DescriptionWidth] + "..."
  {
    if |d| > DescriptionWidth then d[..DescriptionWidth] + "..." else d
  }

  /** The cell is at most 63 characters and starts with the text's first 60 (all of it when shorter). */
  lemma TruncateShape(d: string)
    ensures |Truncate(d)| <= DescriptionWidth + 3
    ensures var shown := Min(|d|, DescriptionWidth);
      Truncate(d)[..shown] == d[..shown]
  {
  }

  /** Truncating a cell again leaves it as it is. */
  lemma TruncateIdempotent(d: string)
    ensures Truncate(Truncate(d)) == Truncate(d)
  {
    if |d| > DescriptionWidth {
      assert Truncate(d)[..DescriptionWidth] == d[..DescriptionWidth];
    }
  }

  /** The colours of the state cell. */
  datatype Colour = Green | Yellow | Red | Blue

  /** Green, yellow and red for active, inactive and failed units, blue for the rest. */
  function StateColour(state: ActiveState): (c: Colour)
    ensures c == Green <==> state == Active
    ensures c == Yellow <==> state == Inactive
    ensures c == Red <==> state == Failed
  {
    match state
    case Active => Green
    case Inactive => Yellow
    case Failed => Red
    case _ => Blue
  }

  /** The enabled cell: a check mark or a cross. */
  function EnabledMark(enabled: bool): (mark: string)
    ensures |mark| == 1
    ensures mark == "✓" <==> enabled
    ensures !enabled ==> mark == "✗"
  {
    if enabled then "✓" else "✗"
  }

  /** One table row; the row is keyed by the unit name. */
  datatype Row = Row(key: string, name: string, state: string, colour: Colour, enabled: string, description: string)

  /** The cells `update_table` computes for a record that has a description. */
  function RowOf(s: Service): (row: Row)
    requires s.description.Some?
    ensures row.key == row.name == s.name
    ensures row.state == ActiveValue(s.activeState)
    ensures row.colour == StateColour(s.activeState)
    ensures row.enabled == EnabledMark(s.enabled)
    ensures row.description == Truncate(s.description.value)
  {
    Row(s.name, s.name, ActiveValue(s.activeState), StateColour(s.activeState), EnabledMark(s.enabled), Truncate(s.description.value))
  }

  /** The state cell reads back as the record's state. */
  lemma RowStateReadsBack(s: Service)
    requires s.description.Some?
    ensures ParseActiveState(RowOf(s).state) == s.activeState
  {
    ActiveStateRoundTrip(s.activeState);
  }

  /** Every record in the list has a description, so its row can be drawn. */
  predicate Described(services: seq<Service>) {
    forall k :: 0 <= k < |services| ==> services[k].description.Some?
  }

  /** Every record `list_services` returns carries a description. */
  lemma ListingDescribed(manager: ServiceManager, showAll: bool, exec: Executor)
    ensures Described(manager.ListingOf(showAll, exec))
  {
    var result := manager.RunCommand(ListArgs(showAll), exec);
    if result.returncode == 0 {
      var services := ParseLines(ListingLines(result.stdout), manager.EnabledLookup(exec));
      assert forall k :: 0 <= k < |services| ==> WellFormed(services[k], manager.EnabledLookup(exec));
    }
  }

  /** The rows of the table, one per filtered record, in order. */
  function Table(filtered: seq<Service>): (rows: seq<Row>)
    requires Described(filtered)
    ensures |rows| == |filtered|
    ensures forall k :: 0 <= k < |rows| ==> rows[k] == RowOf(filtered[k])
  {
    seq(|filtered|, k requires 0 <= k < |filtered| => RowOf(filtered[k]))
  }

  // ---------------------------------------------------------------------
  // Selection and the actions on it
  // ---------------------------------------------------------------------

  /** `get_selected_service`: the name under the cursor when the cursor is on a row. */
  function SelectedName(filtered: seq<Service>, cursor: int): (name: Option<string>)
    ensures name.Some? <==> 0 <= cursor < |filtered|
    ensures name.Some? ==> name.value == filtered[cursor].name
  {
    if 0 <= cursor < |filtered| then Some(filtered[cursor].name) else None
  }

  /** The severities of a notification. */
  datatype Severity = Information | Warning | Failure

  /** What an action shows: a notification, or a screen with a body of text. */
  datatype Effect =
    | Notify(severity: Severity, text: string)
    | ShowStatus(output: string)
    | ShowLogs(logs: string)

  /** The warning of an action taken with no row under the cursor. */
  const NoSelection := Notify(Warning, "No service selected")

  /** The notification after a confirmed control action. */
  function ControlNotice(reply: Reply): (notice: Effect)
    ensures notice.Notify?
    ensures notice.severity == Information <==> reply.success
    ensures reply.success ==> notice.text == reply.message
    ensures !reply.success ==> notice.text == "Error: " + reply.message && notice.severity == Failure
  {
    if reply.success then Notify(Information, reply.message) else Notify(Failure, "Error: " + reply.message)
  }

  /**
   * `action_status`: the status screen when the unit's status could be read,
   * a failure notice otherwise; a warning when nothing is selected.
   */
  function StatusEffect(selected: Option<string>, manager: ServiceManager, exec: Executor): (e: Effect)
    ensures selected.None? || selected.value == "" ==> e == NoSelection
    ensures selected.Some? && selected.value != "" ==>
      var result := manager.RunCommand(["status", selected.value], exec);
      (e.ShowStatus? <==> result.returncode <= 3)
      && (e.ShowStatus? ==> e.output == result.stdout)
      && (!e.ShowStatus? ==> e == Notify(Failure, "Failed to get service status"))
  {
    if selected.None? || selected.value == "" then NoSelection
    else match manager.GetServiceStatus(selected.value, exec)
      case Some(info) => ShowStatus(info["output"])
      case None => Notify(Failure, "Failed to get service status")
  }

  /**
   * `action_logs`: the log screen when the log command succeeded with some
   * output (an empty text counts as a failure), a failure notice otherwise.
   */
  function LogsEffect(selected: Option<string>, manager: ServiceManager, exec: Executor): (e: Effect)
    ensures selected.None? || selected.value == "" ==> e == NoSelection
    ensures selected.Some? && selected.value != "" ==>
      var outcome := exec(manager.LogsCommand(selected.value, DefaultLogLines));
      (e.ShowLogs? <==> outcome.Exited? && outcome.returncode == 0 && outcome.stdout != "")
      && (e.ShowLogs? ==> e.logs == outcome.stdout)
      && (!e.ShowLogs? ==> e == Notify(Failure, "Failed to get service logs"))
  {
    if selected.None? || selected.value == "" then NoSelection
    else match manager.GetServiceLogs(selected.value, DefaultLogLines, exec)
      case Some(logs) => if logs != "" then ShowLogs(logs) else Notify(Failure, "Failed to get service logs")
      case None => Notify(Failure, "Failed to get service logs")
  }

  // ---------------------------------------------------------------------
  // The application state
  // ---------------------------------------------------------------------

  /** `PolvonApp`: the listing, its filtered view, the query and the listing mode. */
  class PolvonApp {
    const manager: ServiceManager
    var services: seq<Service>
    var filteredServices: seq<Service>
    var searchQuery: string
    var showAllServices: bool

    /** The view always shows the listing filtered by the current query. */
    ghost predicate Valid()
      reads this
    {
      filteredServices == FilterView(services, searchQuery)
    }

    constructor (useSudo: bool)
      ensures manager.useSudo == useSudo
      ensures services == [] && filteredServices == [] && searchQuery == "" && !showAllServices
      ensures Valid()
    {
      manager := new ServiceManager(useSudo);
      services := [];
      filteredServices := [];
      searchQuery := "";
      showAllServices := false;
    }

    /** `filter_services` */
    method FilterServices()
      modifies this`filteredServices
      ensures filteredServices == FilterView(services, searchQuery)
    {
      filteredServices := FilterView(services, searchQuery);
    }

    /** `load_services`: list the units in the current mode, then re-apply the query. */
    method LoadServices(exec: Executor)
      modifies this`services, this`filteredServices
      ensures services == manager.ListingOf(showAllServices, exec)
      ensures Valid() && Described(services)
    {
      var issued;
      services, issued := manager.ListServices(showAllServices, exec);
      ListingDescribed(manager, showAllServices, exec);
      FilterServices();
    }

    /** `action_refresh`: reload, then say so. */
    method Refresh(exec: Executor) returns (effect: Effect)
      modifies this`services, this`filteredServices
      ensures services == manager.ListingOf(showAllServices, exec)
      ensures Valid() && Described(services)
      ensures effect == Notify(Information, "Services refreshed")
    {
      LoadServices(exec);
      effect := Notify(Information, "Services refreshed");
    }

    /** `action_toggle_all`: switch the listing mode and reload. */
    method ToggleAll(exec: Executor)
      modifies this`showAllServices, this`services, this`filteredServices
      ensures showAllServices == !old(showAllServices)
      ensures services == manager.ListingOf(showAllServices, exec)
      ensures Valid() && Described(services)
    {
      showAllServices := !showAllServices;
      LoadServices(exec);
    }

    /** `on_search_input_changed`: store the query and refilter the same listing. */
    method OnSearchInputChanged(value: string)
      modifies this`searchQuery, this`filteredServices
      ensures searchQuery == value
      ensures Valid()
    {
      searchQuery := value;
      FilterServices();
    }

    /**
     * `action_clear_search`: emptying the search box raises the same change
     * event as typing, with an empty value, so the whole listing is shown.
     */
    method ClearSearch()
      modifies this`searchQuery, this`filteredServices
      ensures searchQuery == "" && filteredServices == services
      ensures Valid()
    {
      OnSearchInputChanged("");
    }

    /** `get_selected_service` for the row under `cursor`. */
    function GetSelectedService(cursor: int): (name: Option<string>)
      reads this
      ensures name.Some? <==> 0 <= cursor < |filteredServices|
      ensures name.Some? ==> name.value == filteredServices[cursor].name
    {
      SelectedName(filteredServices, cursor)
    }

    /** The selected unit is a listed one, and with a query set it matches the query. */
    lemma SelectedIsListed(cursor: int)
      requires Valid()
      ensures var name := GetSelectedService(cursor);
        name.Some? ==> exists s :: s in services && s.name == name.value && (searchQuery != "" ==> Matches(s, Lower(searchQuery)))
    {
      if 0 <= cursor < |filteredServices| {
        var s := filteredServices[cursor];
        assert s in services;
        if searchQuery != "" {
          FilterViewMembership(services, searchQuery, s);
        }
      }
    }

    /** The cells of the table. */
    function TableRows(): (rows: seq<Row>)
      reads this
      requires Valid() && Described(services)
      ensures Described(filteredServices)
      ensures |rows| == |filteredServices|
      ensures forall k :: 0 <= k < |rows| ==> rows[k] == RowOf(filteredServices[k])
    {
      assert Described(filteredServices) by {
        forall k | 0 <= k < |filteredServices|
          ensures filteredServices[k].description.Some?
        {
          var j :| 0 <= j < |services| && services[j] == filteredServices[k];
        }
      }
      Table(filteredServices)
    }

    /**
     * `action_start`, `action_stop`, `action_restart`, `action_enable` and
     * `action_disable`: with a unit selected and the dialog confirmed, run
     * the verb; the listing is reloaded (from the system as it is after the
     * action, `after`) only when the verb succeeded.
     */
    method ControlAction(verb: Verb, cursor: int, confirmed: bool, exec: Executor, after: Executor)
      returns (effect: Option<Effect>)
      requires Valid()
      modifies this`services, this`filteredServices
      ensures var selected := old(GetSelectedService(cursor));
        if selected.None? || selected.value == "" then
          effect == Some(NoSelection) && services == old(services) && filteredServices == old(filteredServices)
        else if !confirmed then
          effect == None && services == old(services) && filteredServices == old(filteredServices)
        else
          var reply := manager.Control(verb, selected.value, exec);
          && effect == Some(ControlNotice(reply))
          && (reply.success ==> services == manager.ListingOf(showAllServices, after))
          && (!reply.success ==> services == old(services) && filteredServices == old(filteredServices))
      ensures Valid()
    {
      var selected := GetSelectedService(cursor);
      if selected.None? || selected.value == "" {
        return Some(NoSelection);
      }
      if !confirmed {
        return None;
      }
      var reply := manager.Control(verb, selected.value, exec);
      effect := Some(ControlNotice(reply));
      if reply.success {
        LoadServices(after);
      }
    }
  }
}
