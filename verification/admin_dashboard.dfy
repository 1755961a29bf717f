/** The leads dashboard (src/app/admin/page.tsx): the status shown for a
    lead, the trimmed contact cells, the state kept across fetches of the
    `leads` table, and which of spinner, error banner or table is shown.
    The query itself is an input (`FetchOutcome`). */
module AdminDashboard {
  import opened Wrappers
  import opened Text

  /** A row of the `leads` table. Fields the database may leave `null` are
      optional; the ones the page never reads as text are kept as stored. */
  datatype Lead = Lead(
    id: string,
    createdAt: string,
    name: Option<string>,
    email: Option<string>,
    phone: Option<string>,
    propertyAddress: Option<string>,
    currentStatus: Option<string>)

  const DefaultStatus := "new"

  /** `s.replace(/"/g, '').toLowerCase()` */
  function NormalizeStatus(s: string): string {
    ToLower(Remove(s, '"'))
  }

  /** The status shown for a lead: a present, non-empty `current_status`
      with every `"` removed and lower-cased; otherwise `"new"`. */
  function DeriveStatus(currentStatus: Option<string>): (r: string)
    ensures currentStatus.None? || currentStatus.value == [] ==> r == DefaultStatus
    ensures currentStatus.Some? && currentStatus.value != [] ==>
      |r| == |currentStatus.value| - multiset(currentStatus.value)['"']
    ensures currentStatus.Some? && currentStatus.value != [] ==>
      r == Remove(ToLower(currentStatus.value), '"')
    ensures forall i :: 0 <= i < |r| ==> r[i] != '"' && !IsUpper(r[i])
  {
    match currentStatus
    case Some(s) =>
      if s != [] then NormalizeStatusCommutes(s); NormalizeStatus(s) else DefaultStatus
    case None => DefaultStatus
  }

  /** Removing `"` and lower-casing may be done in either order, since
      lower-casing neither makes nor unmakes a `"`. */
  lemma {:induction false} NormalizeStatusCommutes(s: string)
    ensures NormalizeStatus(s) == Remove(ToLower(s), '"')
  {
    if s != [] {
      NormalizeStatusCommutes(s[1..]);
      var c := s[0];
      var l := ToLower(s);
      assert l[0] == LowerChar(c) && l[1..] == ToLower(s[1..]);
      assert LowerChar(c) == '"' <==> c == '"';
      var h: string := if c == '"' then [] else [c];
      assert Remove(s, '"') == h + Remove(s[1..], '"');
      ToLowerConcat(h, Remove(s[1..], '"'));
      assert ToLower(h) == if c == '"' then [] else [LowerChar(c)];
    }
  }

  /** Normalisation works character by character and keeps the order of what
      it keeps: it distributes over concatenation, and on one character it
      drops a `"` and lower-cases anything else. */
  lemma {:induction false} NormalizeStatusConcat(a: string, b: string)
    ensures NormalizeStatus(a + b) == NormalizeStatus(a) + NormalizeStatus(b)
  {
    RemoveConcat(a, b, '"');
    ToLowerConcat(Remove(a, '"'), Remove(b, '"'));
  }

  lemma NormalizeStatusChar(c: char)
    ensures NormalizeStatus([c]) == if c == '"' then [] else [LowerChar(c)]
  {
    assert [c][1..] == [];
  }

  /** A lower-case string without `"` normalises to itself. */
  lemma NormalizeStatusFixed(s: string)
    requires forall i :: 0 <= i < |s| ==> s[i] != '"' && !IsUpper(s[i])
    ensures NormalizeStatus(s) == s
  {
    RemoveAbsent(s, '"');
    var r := ToLower(s);
    assert forall i :: 0 <= i < |s| ==> r[i] == s[i];
  }

  /** Deriving the status again from a derived status changes nothing, as
      long as the derived status is not empty. */
  lemma DeriveStatusIdempotent(currentStatus: Option<string>)
    requires DeriveStatus(currentStatus) != []
    ensures DeriveStatus(Some(DeriveStatus(currentStatus))) == DeriveStatus(currentStatus)
  {
    NormalizeStatusFixed(DeriveStatus(currentStatus));
  }

  /** A present status made only of `"` characters is shown as the empty
      string, not as `"new"`. */
  lemma QuotesOnlyStatusEmpty(s: string)
    requires s != [] && forall i :: 0 <= i < |s| ==> s[i] == '"'
    ensures DeriveStatus(Some(s)) == []
  {
    RemoveOnly(s, '"');
  }

  /** So idempotence needs the non-empty result: `"\""` derives `""`, and
      `""` derives `"new"`. */
  lemma DeriveStatusNotIdempotentOnQuotes()
    ensures DeriveStatus(Some("\"")) == []
    ensures DeriveStatus(Some(DeriveStatus(Some("\"")))) == DefaultStatus
  {
    QuotesOnlyStatusEmpty("\"");
  }

  /** A status wrapped in double quotes, as the automation writes it, shows
      as the lower-cased word inside. */
  lemma QuotedStatus(word: string)
    requires forall i :: 0 <= i < |word| ==> word[i] != '"'
    ensures DeriveStatus(Some(['"'] + word + ['"'])) == ToLower(word)
  {
    UnquoteWord(word);
    assert NormalizeStatus(['"'] + word + ['"']) == ToLower(word);
  }

  lemma UnquoteWord(word: string)
    requires forall i :: 0 <= i < |word| ==> word[i] != '"'
    ensures Remove(['"'] + word + ['"'], '"') == word
  {
    RemoveConcat(['"'] + word, ['"'], '"');
    RemoveConcat(['"'], word, '"');
    RemoveOnly(['"'], '"');
    RemoveAbsent(word, '"');
  }

  lemma LowerContacted()
    ensures ToLower("Contacted") == "contacted"
  {
    var r := ToLower("Contacted");
    assert r[0] == 'c';
  }

  /** `"\"Contacted\""` shows as `contacted`. */
  lemma QuotedStatusExample()
    ensures DeriveStatus(Some("\"Contacted\"")) == "contacted"
  {
    LowerContacted();
    assert "\"Contacted\"" == ['"'] + "Contacted" + ['"'];
    QuotedStatus("Contacted");
  }

  // ---------------------------------------------------------------- cells

  /** `value?.trim()`: an absent value shows nothing; a present one shows
      without white space at either end. */
  function Cell(value: Option<string>): (c: Option<string>)
    ensures c.Some? <==> value.Some?
    ensures c.Some? ==> |c.value| <= |value.value|
    ensures c.Some? ==> (c.value == [] <==> AllSpace(value.value))
    ensures c.Some? && c.value != [] ==> !IsSpace(c.value[0]) && !IsSpace(c.value[|c.value| - 1])
    ensures ShowsTrimmed(c, value)
  {
    match value
    case Some(v) =>
      TrimTrimmedOf(v);
      Some(Trim(v))
    case None => None
  }

  /** A cell shows a stored field when it is present exactly when the field
      is, and then holds the stored text with only its end white space
      removed. */
  predicate ShowsTrimmed(cell: Option<string>, stored: Option<string>) {
    (cell.Some? <==> stored.Some?) && (cell.Some? ==> TrimmedOf(cell.value, stored.value))
  }

  /** At most one cell shows a stored field, so the cell is determined. */
  lemma ShowsTrimmedUnique(cell: Option<string>, stored: Option<string>)
    requires ShowsTrimmed(cell, stored)
    ensures cell == Cell(stored)
  {
    if cell.Some? {
      TrimmedOfUnique(cell.value, stored.value);
    }
  }

  /** Showing a shown cell again changes nothing. */
  lemma CellIdempotent(value: Option<string>)
    ensures Cell(Cell(value)) == Cell(value)
  {
    if value.Some? {
      TrimIdempotent(value.value);
    }
  }

  /** One table row: React key, four trimmed cells and the derived status. */
  datatype Row = Row(
    key: string,
    name: Option<string>,
    email: Option<string>,
    phone: Option<string>,
    propertyAddress: Option<string>,
    status: string)

  /** What a row shows for a lead: keyed by its id, each contact cell the
      stored field trimmed, and the status `"new"` when absent or empty and
      otherwise the stored status lower-cased with every `"` removed. */
  predicate ShowsLead(r: Row, lead: Lead) {
    && r.key == lead.id
    && ShowsTrimmed(r.name, lead.name) && ShowsTrimmed(r.email, lead.email)
    && ShowsTrimmed(r.phone, lead.phone) && ShowsTrimmed(r.propertyAddress, lead.propertyAddress)
    && (lead.currentStatus.None? || lead.currentStatus.value == [] ==> r.status == DefaultStatus)
    && (lead.currentStatus.Some? && lead.currentStatus.value != [] ==>
          r.status == Remove(ToLower(lead.currentStatus.value), '"'))
  }

  /** The row rendered for a lead (lines 116-130). */
  function DisplayRow(lead: Lead): (r: Row)
    ensures ShowsLead(r, lead)
  {
    Row(lead.id, Cell(lead.name), Cell(lead.email), Cell(lead.phone), Cell(lead.propertyAddress),
        DeriveStatus(lead.currentStatus))
  }

  /** The description fixes the row: any row that shows the lead is the one
      rendered. */
  lemma ShowsLeadUnique(r: Row, lead: Lead)
    requires ShowsLead(r, lead)
    ensures r == DisplayRow(lead)
  {
    ShowsTrimmedUnique(r.name, lead.name);
    ShowsTrimmedUnique(r.email, lead.email);
    ShowsTrimmedUnique(r.phone, lead.phone);
    ShowsTrimmedUnique(r.propertyAddress, lead.propertyAddress);
  }

  // ---------------------------------------------------------------- fetching

  datatype DashboardState = DashboardState(leads: seq<Lead>, isLoading: bool, error: Option<string>)

  const InitialDashboard := DashboardState([], true, None)

  const LoadError := "Failed to load leads. Please try again."

  /** How one query of the `leads` table ended: rows (`data`, possibly
      `null`), or a failure, whether returned as `error` or thrown. */
  datatype FetchOutcome = Rows(data: Option<seq<Lead>>) | Failed

  /** `fetchLeads` once its query has settled. */
  function FetchLeads(st: DashboardState, outcome: FetchOutcome): (r: DashboardState)
    ensures !r.isLoading
    ensures outcome.Rows? ==> r.leads == outcome.data.GetOr([]) && r.error == st.error
    ensures outcome.Failed? ==> r.leads == st.leads && r.error == Some(LoadError)
  {
    match outcome
    case Rows(data) => st.(leads := data.GetOr([]), isLoading := false)
    case Failed => st.(error := Some(LoadError), isLoading := false)
  }

  /** The dashboard after the fetches started on mount and by the 10-second
      timer settle, in the order they settle: each settled fetch overwrites
      the state, so the order of settling is all that matters. */
  function Poll(st: DashboardState, outcomes: seq<FetchOutcome>): DashboardState
    decreases |outcomes|
  {
    if outcomes == [] then st
    else FetchLeads(Poll(st, outcomes[..|outcomes| - 1]), outcomes[|outcomes| - 1])
  }

  predicate AnyFailed(outcomes: seq<FetchOutcome>) {
    exists k :: 0 <= k < |outcomes| && outcomes[k].Failed?
  }

  /** The error is set exactly when some fetch failed or it was already set;
      nothing ever clears it. */
  lemma {:induction false} PollError(st: DashboardState, outcomes: seq<FetchOutcome>)
    ensures Poll(st, outcomes).error == if AnyFailed(outcomes) then Some(LoadError) else st.error
    decreases |outcomes|
  {
    if outcomes != [] {
      var init := outcomes[..|outcomes| - 1];
      PollError(st, init);
      if AnyFailed(init) {
        var k :| 0 <= k < |init| && init[k].Failed?;
        assert outcomes[k].Failed?;
      }
      if AnyFailed(outcomes) && !outcomes[|outcomes| - 1].Failed? {
        var k :| 0 <= k < |outcomes| && outcomes[k].Failed?;
        assert init[k].Failed?;
      }
    }
  }

  /** Once set, the error stays set through every later fetch. */
  lemma ErrorIsSticky(st: DashboardState, outcomes: seq<FetchOutcome>)
    requires st.error.Some?
    ensures Poll(st, outcomes).error.Some?
  {
    PollError(st, outcomes);
  }

  /** The spinner stops for good with the first settled fetch. */
  lemma {:induction false} PollStopsLoading(st: DashboardState, outcomes: seq<FetchOutcome>)
    ensures Poll(st, outcomes).isLoading <==> outcomes == [] && st.isLoading
  {
  }

  /** The leads are those of the last fetch that returned rows (`[]` for
      `null`), whatever failed after it. */
  lemma {:induction false} PollLeads(st: DashboardState, outcomes: seq<FetchOutcome>, k: int)
    requires 0 <= k < |outcomes| && outcomes[k].Rows?
    requires forall m :: k < m < |outcomes| ==> outcomes[m].Failed?
    ensures Poll(st, outcomes).leads == outcomes[k].data.GetOr([])
    decreases |outcomes|
  {
    if k < |outcomes| - 1 {
      var init := outcomes[..|outcomes| - 1];
      PollLeads(st, init, k);
    }
  }

  /** If every fetch failed, the leads are the ones held before. */
  lemma {:induction false} PollLeadsAllFailed(st: DashboardState, outcomes: seq<FetchOutcome>)
    requires forall m :: 0 <= m < |outcomes| ==> outcomes[m].Failed?
    ensures Poll(st, outcomes).leads == st.leads
    decreases |outcomes|
  {
    if outcomes != [] {
      PollLeadsAllFailed(st, outcomes[..|outcomes| - 1]);
    }
  }

  // ---------------------------------------------------------------- view

  datatype View = Spinner | ErrorBanner(message: string) | NoLeads | Table(rows: seq<Row>)

  /** What the page renders: the spinner while loading, else the error banner
      if an error is set, else the empty-table message or one row per lead in
      the order fetched. */
  function Render(st: DashboardState): (v: View)
    ensures v.Spinner? <==> st.isLoading
    ensures v.ErrorBanner? <==> !st.isLoading && st.error.Some? && st.error.value != []
    ensures v.ErrorBanner? ==> v.message == st.error.value
    ensures v.NoLeads? ==> st.leads == []
    ensures v.Table? ==> |v.rows| == |st.leads| > 0
    ensures v.Table? ==> forall k :: 0 <= k < |st.leads| ==> v.rows[k] == DisplayRow(st.leads[k])
  {
    if st.isLoading then Spinner
    else if st.error.Some? && st.error.value != [] then ErrorBanner(st.error.value)
    else if |st.leads| == 0 then NoLeads
    else Table(seq(|st.leads|, k requires 0 <= k < |st.leads| => DisplayRow(st.leads[k])))
  }

  /** After any failed fetch the page shows the error banner and never the
      table again, however many later fetches succeed. */
  lemma NoTableAfterFailure(st: DashboardState, outcomes: seq<FetchOutcome>)
    requires AnyFailed(outcomes)
    ensures Render(Poll(st, outcomes)) == ErrorBanner(LoadError)
  {
    PollError(st, outcomes);
    PollStopsLoading(st, outcomes);
  }
}
