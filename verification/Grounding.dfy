/**
 Grounded answers: greedy evidence selection under a token budget and a per-source quota, validation
 of cited ids against the frozen manifest, citation payloads, and plain or streamed publication.
 */
module Grounding {
  import opened Common
  import opened Decimals
  import opened TextWindows

  const PER_SOURCE_QUOTA := 2

  datatype Row = Row(
    chunk: nat, source: nat, version: nat, node: nat, start: nat, end: nat, title: string, text: string, tokens: nat)

  datatype Evidence = Evidence(id: string, row: Row)

  datatype NoteContext = NoteContext(id: string, note: nat, revision: nat, title: string, text: string)

  datatype Error =
    | BudgetNotPositive | NotesNotUnique | NoteUnavailable | NoteContextChanged | SpanWithoutEvidence
    | OutsideManifest | NotInNotebook | NoLocator | NotAuthorized | UnsupportedId | InsufficientWithSpans

  datatype Result<+T> = Ok(value: T) | Err(error: Error)

  // ------------------------------------------------------------------ selection

  function CountOf(picks: seq<Row>, source: nat): nat {
    if picks == [] then 0
    else CountOf(picks[..|picks| - 1], source) + if picks[|picks| - 1].source == source then 1 else 0
  }

  function TotalTokens(picks: seq<Row>): nat {
    if picks == [] then 0 else TotalTokens(picks[..|picks| - 1]) + picks[|picks| - 1].tokens
  }

  /** The row could be added to what is picked. */
  predicate Fits(picks: seq<Row>, row: Row, budget: int) {
    CountOf(picks, row.source) < PER_SOURCE_QUOTA && TotalTokens(picks) + row.tokens <= budget
  }

  /** The results that are taken, in rank order. */
  function Picked(results: seq<Row>, budget: int): seq<Row> {
    if results == [] then []
    else
      var n := |results| - 1;
      var before := Picked(results[..n], budget);
      if Fits(before, results[n], budget) then before + [results[n]] else before
  }

  /** Whether the result at a position is taken when its turn comes. */
  predicate Taken(results: seq<Row>, i: nat, budget: int)
    requires i < |results|
  {
    Fits(Picked(results[..i], budget), results[i], budget)
  }

  function EvidenceId(index: nat): string { "e" + Decimal(index) }

  function NoteId(index: nat): string { "n" + Decimal(index) }

  /** Server ids in order, from 1. */
  function Numbered(rows: seq<Row>): (r: seq<Evidence>)
    ensures |r| == |rows|
  {
    seq(|rows|, k requires 0 <= k < |rows| => Evidence(EvidenceId(k + 1), rows[k]))
  }

  function Assembled(results: seq<Row>, budget: int): seq<Evidence> {
    Numbered(Picked(results, budget))
  }

  lemma PickedStep(results: seq<Row>, i: nat, budget: int)
    requires i < |results|
    ensures var before := Picked(results[..i], budget);
            Picked(results[..i + 1], budget) == if Taken(results, i, budget) then before + [results[i]] else before
  {
    assert results[..i + 1][..i] == results[..i];
  }

  lemma CountPush(picks: seq<Row>, row: Row, source: nat)
    ensures CountOf(picks + [row], source) == CountOf(picks, source) + if row.source == source then 1 else 0
    ensures TotalTokens(picks + [row]) == TotalTokens(picks) + row.tokens
  {
    assert (picks + [row])[..|picks|] == picks;
  }

  /** The per-source counters of the loop. */
  ghost predicate Counts(perSource: map<nat, nat>, picks: seq<Row>) {
    forall source :: CountedAs(perSource, picks, source)
  }

  ghost predicate CountedAs(perSource: map<nat, nat>, picks: seq<Row>, source: nat) {
    (if source in perSource then perSource[source] else 0) == CountOf(picks, source)
  }

  lemma CountsPush(perSource: map<nat, nat>, picks: seq<Row>, row: Row)
    requires Counts(perSource, picks)
    ensures Counts(perSource[row.source := CountOf(picks, row.source) + 1], picks + [row])
  {
    var after := perSource[row.source := CountOf(picks, row.source) + 1];
    var more := picks + [row];
    forall source ensures CountedAs(after, more, source) {
      assert CountedAs(perSource, picks, source);
      CountPush(picks, row, source);
    }
  }

  /** The variables of the loop when `rows` are picked. */
  ghost predicate Holding(rows: seq<Row>, selected: seq<Evidence>, perSource: map<nat, nat>, used: nat) {
    selected == Numbered(rows) && Counts(perSource, rows) && used == TotalTokens(rows)
  }

  lemma HoldingPush(rows: seq<Row>, row: Row, selected: seq<Evidence>, perSource: map<nat, nat>, used: nat)
    requires Holding(rows, selected, perSource, used)
    ensures var count := if row.source in perSource then perSource[row.source] else 0;
            && count == CountOf(rows, row.source)
            && Holding(rows + [row], selected + [Evidence(EvidenceId(|selected| + 1), row)],
                       perSource[row.source := count + 1], used + row.tokens)
  {
    assert CountedAs(perSource, rows, row.source);
    CountsPush(perSource, rows, row);
    CountPush(rows, row, row.source);
  }

  /** _assemble. */
  method Assemble(results: seq<Row>, budget: int) returns (r: Result<seq<Evidence>>)
    ensures budget < 1 ==> r == Err(BudgetNotPositive)
    ensures budget >= 1 ==> r == Ok(Assembled(results, budget))
  {
    if budget < 1 {
      return Err(BudgetNotPositive);
    }
    var selected: seq<Evidence> := [];
    var perSource: map<nat, nat> := map[];
    var used: nat := 0;
    ghost var rows: seq<Row> := [];
    for i := 0 to |results|
      invariant rows == Picked(results[..i], budget) && Holding(rows, selected, perSource, used)
    {
      var row := results[i];
      PickedStep(results, i, budget);
      HoldingPush(rows, row, selected, perSource, used);
      var count := if row.source in perSource then perSource[row.source] else 0;
      if count >= PER_SOURCE_QUOTA {
        continue;
      }
      if used + row.tokens > budget {
        continue;
      }
      selected := selected + [Evidence(EvidenceId(|selected| + 1), row)];
      perSource := perSource[row.source := count + 1];
      used := used + row.tokens;
      rows := rows + [row];
    }
    assert results[..|results|] == results;
    r := Ok(selected);
  }

  /** Within the budget and the quota. */
  lemma {:induction false} PickedWithin(results: seq<Row>, budget: int, source: nat)
    requires budget >= 0
    ensures TotalTokens(Picked(results, budget)) <= budget
    ensures CountOf(Picked(results, budget), source) <= 2
  {
    if results != [] {
      var n := |results| - 1;
      PickedWithin(results[..n], budget, source);
      CountPush(Picked(results[..n], budget), results[n], source);
    }
  }

  lemma {:induction false} CountsGrow(picks: seq<Row>, n: nat, source: nat)
    requires n <= |picks|
    ensures CountOf(picks[..n], source) <= CountOf(picks, source)
    ensures TotalTokens(picks[..n]) <= TotalTokens(picks)
  {
    var last := |picks| - 1;
    if n < |picks| {
      CountsGrow(picks[..last], n, source);
      assert picks[..last][..n] == picks[..n];
    } else {
      assert picks[..n] == picks;
    }
  }

  /** Later rounds only add at the end. */
  lemma {:induction false} PickedGrows(results: seq<Row>, i: nat, budget: int)
    requires i <= |results|
    ensures Picked(results[..i], budget) <= Picked(results, budget)
    decreases |results|
  {
    if i < |results| {
      var n := |results| - 1;
      PickedGrows(results[..n], i, budget);
      assert results[..n][..i] == results[..i];
    } else {
      assert results[..i] == results;
    }
  }

  /** A skipped result could not be added at the end either. */
  lemma PickedMaximal(results: seq<Row>, i: nat, budget: int)
    requires i < |results|
    ensures var all := Picked(results, budget);
            || i in Positions(results, budget)
            || CountOf(all, results[i].source) >= 2 || TotalTokens(all) + results[i].tokens > budget
  {
    var before, all := Picked(results[..i], budget), Picked(results, budget);
    TakenPositions(results, budget, i);
    PickedGrows(results, i, budget);
    assert all[..|before|] == before;
    CountsGrow(all, |before|, results[i].source);
  }

  /** The taken positions, in order. */
  function Positions(results: seq<Row>, budget: int): (r: seq<nat>)
    ensures forall k :: 0 <= k < |r| ==> r[k] < |results|
  {
    if results == [] then []
    else
      var n := |results| - 1;
      var before := Positions(results[..n], budget);
      assert forall k :: 0 <= k < |before| ==> before[k] < n;
      if Taken(results, n, budget) then before + [n] else before
  }

  /** The selection is the subsequence of the results at those positions. */
  lemma {:induction false} PickedIsSubsequence(results: seq<Row>, budget: int)
    ensures var at := Positions(results, budget);
            && |at| == |Picked(results, budget)|
            && (forall k :: 0 <= k < |at| ==> Picked(results, budget)[k] == results[at[k]])
            && (forall j, k :: 0 <= j < k < |at| ==> at[j] < at[k])
  {
    if results != [] {
      var n := |results| - 1;
      PickedIsSubsequence(results[..n], budget);
    }
  }

  lemma {:induction false} TakenPositions(results: seq<Row>, budget: int, i: nat)
    requires i < |results|
    ensures i in Positions(results, budget) <==> Taken(results, i, budget)
    decreases |results|
  {
    var n := |results| - 1;
    if i < n {
      TakenPositions(results[..n], budget, i);
      assert results[..n][..i] == results[..i];
    }
  }

  /** And those positions are exactly the ones that fit quota and budget at their turn. */
  lemma {:induction false} PositionsAreTaken(results: seq<Row>, budget: int, i: nat)
    requires i < |results|
    ensures var before := Picked(results[..i], budget);
            i in Positions(results, budget) <==>
            CountOf(before, results[i].source) < 2 && TotalTokens(before) + results[i].tokens <= budget
  {
    TakenPositions(results, budget, i);
  }

  // ------------------------------------------------------------------------- ids

  lemma EvidenceIdsDiffer(i: nat, j: nat)
    requires EvidenceId(i) == EvidenceId(j)
    ensures i == j
  {
    assert EvidenceId(i)[1..] == Decimal(i) && EvidenceId(j)[1..] == Decimal(j);
    DecimalInjective(i, j);
  }

  lemma NoteIdsDiffer(i: nat, j: nat)
    requires NoteId(i) == NoteId(j)
    ensures i == j
  {
    assert NoteId(i)[1..] == Decimal(i) && NoteId(j)[1..] == Decimal(j);
    DecimalInjective(i, j);
  }

  // ----------------------------------------------------------------------- notes

  datatype NoteRow = NoteRow(note: nat, title: string, text: string)

  /** The contexts of the selected revisions, numbered from 1 in request order. */
  function NotesOf(selected: seq<nat>, rows: map<nat, NoteRow>): (r: seq<NoteContext>)
    requires forall s :: s in selected ==> s in rows
    ensures |r| == |selected|
  {
    seq(|selected|, k requires 0 <= k < |selected| =>
      NoteContext(NoteId(k + 1), rows[selected[k]].note, selected[k], rows[selected[k]].title, rows[selected[k]].text))
  }

  /** _selected_note_contexts, over the readable revisions of the notebook. */
  function SelectNotes(selected: seq<nat>, readable: map<nat, NoteRow>): Result<seq<NoteContext>> {
    if !Distinct(selected) then Err(NotesNotUnique)
    else if exists s :: s in selected && s !in readable then Err(NoteUnavailable)
    else Ok(NotesOf(selected, readable))
  }

  // ------------------------------------------------------------------ validation

  datatype Span = Span(text: string, ids: seq<string>)

  datatype Draft = Draft(spans: seq<Span>, insufficient: bool)

  datatype Manifest = Manifest(versions: set<nat>, notes: seq<NoteContext>)

  datatype Locator = Locator(kind: string, start: Option<int>, end: Option<int>)

  /**
   What the database says at publication: readable note revisions, nodes that stand in the notebook
   under a version and a source that is not purged, locators of nodes, and versions the actor may read.
   */
  datatype Db = Db(
    notes: map<nat, NoteRow>, nodes: set<(nat, nat, nat)>, locators: map<nat, seq<Locator>>, readable: set<nat>)

  datatype Request = Request(selectedNotes: seq<nat>)

  function LocatorsOf(db: Db, node: nat): seq<Locator> { if node in db.locators then db.locators[node] else [] }

  /** A locator whose characters cover the evidence, or that has none. */
  predicate Covers(l: Locator, row: Row) {
    || (l.start.Some? && l.end.Some? && l.start.value <= row.start && l.end.value >= row.end)
    || (l.start.None? && l.end.None?)
  }

  function CheckItem(db: Db, row: Row): Option<Error> {
    if (row.node, row.version, row.source) !in db.nodes then Some(NotInNotebook)
    else if forall l :: l in LocatorsOf(db, row.node) ==> !Covers(l, row) then Some(NoLocator)
    else if row.version !in db.readable then Some(NotAuthorized)
    else None
  }

  /** The last item of an id, as a dictionary keeps it. */
  function FindEvidence(evidence: seq<Evidence>, id: string): (r: Option<Evidence>)
    ensures r.Some? ==> r.value in evidence && r.value.id == id
    ensures r.None? ==> forall e :: e in evidence ==> e.id != id
  {
    if evidence == [] then None
    else if evidence[|evidence| - 1].id == id then Some(evidence[|evidence| - 1])
    else FindEvidence(evidence[..|evidence| - 1], id)
  }

  function FindNote(notes: seq<NoteContext>, id: string): (r: Option<NoteContext>)
    ensures r.Some? ==> r.value in notes && r.value.id == id
    ensures r.None? ==> forall n :: n in notes ==> n.id != id
  {
    if notes == [] then None
    else if notes[|notes| - 1].id == id then Some(notes[|notes| - 1])
    else FindNote(notes[..|notes| - 1], id)
  }

  function CheckId(db: Db, manifest: Manifest, evidence: seq<Evidence>, id: string): Option<Error> {
    var item := FindEvidence(evidence, id);
    if item.Some? then
      if item.value.row.version !in manifest.versions then Some(OutsideManifest) else CheckItem(db, item.value.row)
    else if FindNote(manifest.notes, id).None? then Some(UnsupportedId)
    else None
  }

  function FirstOf(a: Option<Error>, b: Option<Error>): Option<Error> { if a.Some? then a else b }

  function CheckIds(db: Db, manifest: Manifest, evidence: seq<Evidence>, ids: seq<string>): Option<Error> {
    if ids == [] then None
    else FirstOf(CheckIds(db, manifest, evidence, ids[..|ids| - 1]), CheckId(db, manifest, evidence, ids[|ids| - 1]))
  }

  function CheckSpan(db: Db, manifest: Manifest, evidence: seq<Evidence>, span: Span): Option<Error> {
    if !NonBlank(span.text) || span.ids == [] then Some(SpanWithoutEvidence)
    else CheckIds(db, manifest, evidence, span.ids)
  }

  function CheckSpans(db: Db, manifest: Manifest, evidence: seq<Evidence>, spans: seq<Span>): Option<Error> {
    if spans == [] then None
    else FirstOf(CheckSpans(db, manifest, evidence, spans[..|spans| - 1]),
                 CheckSpan(db, manifest, evidence, spans[|spans| - 1]))
  }

  /** The error _validate raises, if any. */
  function Validation(db: Db, request: Request, manifest: Manifest, evidence: seq<Evidence>,
                      draft: Draft): Option<Error>
  {
    var notes := SelectNotes(request.selectedNotes, db.notes);
    if notes.Err? then Some(notes.error)
    else if notes.value != manifest.notes then Some(NoteContextChanged)
    else CheckSpans(db, manifest, evidence, draft.spans)
  }

  lemma {:induction false} SpansPush(db: Db, manifest: Manifest, evidence: seq<Evidence>, spans: seq<Span>, i: nat)
    requires i < |spans|
    ensures CheckSpans(db, manifest, evidence, spans[..i + 1]) ==
            FirstOf(CheckSpans(db, manifest, evidence, spans[..i]), CheckSpan(db, manifest, evidence, spans[i]))
  {
    assert spans[..i + 1][..i] == spans[..i];
  }

  /** _validate. */
  method Validate(db: Db, request: Request, manifest: Manifest, evidence: seq<Evidence>, draft: Draft)
    returns (error: Option<Error>)
    ensures error == Validation(db, request, manifest, evidence, draft)
  {
    var notes := SelectNotes(request.selectedNotes, db.notes);
    if notes.Err? {
      return Some(notes.error);
    }
    if notes.value != manifest.notes {
      return Some(NoteContextChanged);
    }
    var spans := draft.spans;
    for i := 0 to |spans|
      invariant CheckSpans(db, manifest, evidence, spans[..i]) == None
    {
      SpansPush(db, manifest, evidence, spans, i);
      error := ValidateSpan(db, manifest, evidence, spans[i]);
      if error.Some? {
        StopsAt(db, manifest, evidence, spans, i);
        return;
      }
    }
    assert spans[..|spans|] == spans;
    error := None;
  }

  method ValidateSpan(db: Db, manifest: Manifest, evidence: seq<Evidence>, span: Span) returns (error: Option<Error>)
    ensures error == CheckSpan(db, manifest, evidence, span)
  {
    if !NonBlank(span.text) || span.ids == [] {
      return Some(SpanWithoutEvidence);
    }
    var ids := span.ids;
    for i := 0 to |ids|
      invariant CheckIds(db, manifest, evidence, ids[..i]) == None
    {
      assert ids[..i + 1][..i] == ids[..i];
      error := CheckId(db, manifest, evidence, ids[i]);
      if error.Some? {
        IdsStopAt(db, manifest, evidence, ids, i);
        return;
      }
    }
    assert ids[..|ids|] == ids;
    error := None;
  }

  lemma {:induction false} IdsStopAt(db: Db, manifest: Manifest, evidence: seq<Evidence>, ids: seq<string>, i: nat)
    requires i < |ids| && CheckIds(db, manifest, evidence, ids[..i]) == None &&
             CheckId(db, manifest, evidence, ids[i]).Some?
    ensures CheckIds(db, manifest, evidence, ids) == CheckId(db, manifest, evidence, ids[i])
    decreases |ids|
  {
    var n := |ids| - 1;
    if i < n {
      assert ids[..n][..i] == ids[..i];
      IdsStopAt(db, manifest, evidence, ids[..n], i);
    }
  }

  lemma {:induction false} StopsAt(db: Db, manifest: Manifest, evidence: seq<Evidence>, spans: seq<Span>, i: nat)
    requires i < |spans| && CheckSpans(db, manifest, evidence, spans[..i]) == None
    requires CheckSpan(db, manifest, evidence, spans[i]).Some?
    ensures CheckSpans(db, manifest, evidence, spans) == CheckSpan(db, manifest, evidence, spans[i])
    decreases |spans|
  {
    var n := |spans| - 1;
    if i < n {
      assert spans[..n][..i] == spans[..i];
      StopsAt(db, manifest, evidence, spans[..n], i);
    }
  }

  // --------------------------------------------------------------------- citations

  datatype Citation =
    | SourceCitation(id: string, title: string, version: nat, node: nat, locator: string, start: nat, end: nat)
    | NoteCitation(id: string, title: string, note: nat, revision: nat)

  /** The payload entry of one cited id; None is a failed lookup. */
  function CitationOf(db: Db, evidence: seq<Evidence>, notes: seq<NoteContext>, id: string): Option<Citation> {
    var item := FindEvidence(evidence, id);
    if item.Some? then
      var row := item.value.row;
      var locators := LocatorsOf(db, row.node);
      if locators == [] then None
      else Some(SourceCitation(item.value.id, row.title, row.version, row.node, locators[0].kind, row.start, row.end))
    else
      var note := FindNote(notes, id);
      if note.None? then None
      else Some(NoteCitation(note.value.id, note.value.title, note.value.note, note.value.revision))
  }

  /** A citation of an id: the evidence of that id where one of its locators puts it, or else its note. */
  ghost predicate Cites(db: Db, evidence: seq<Evidence>, notes: seq<NoteContext>, id: string, c: Citation) {
    match c
    case SourceCitation(named, title, version, node, locator, start, end) =>
      && named == id
      && (exists e :: e in evidence && e.id == id && e.row.title == title && e.row.version == version
                      && e.row.node == node && e.row.start == start && e.row.end == end)
      && (node in db.locators && exists l :: l in db.locators[node] && l.kind == locator)
    case NoteCitation(named, title, note, revision) =>
      && named == id && (forall e :: e in evidence ==> e.id != id)
      && (exists n :: n in notes && n.id == id && n.title == title && n.note == note && n.revision == revision)
  }

  lemma CitationCites(db: Db, evidence: seq<Evidence>, notes: seq<NoteContext>, id: string)
    requires CitationOf(db, evidence, notes, id).Some?
    ensures Cites(db, evidence, notes, id, CitationOf(db, evidence, notes, id).value)
  {
    var item := FindEvidence(evidence, id);
    if item.Some? {
      var e := item.value;
      assert e in evidence;
      assert LocatorsOf(db, e.row.node)[0] in db.locators[e.row.node];
    } else {
      assert FindNote(notes, id).value in notes;
    }
  }

  /** All cited ids, span by span. */
  function CitedIds(spans: seq<Span>): seq<string> {
    if spans == [] then [] else CitedIds(spans[..|spans| - 1]) + spans[|spans| - 1].ids
  }

  ghost predicate Resolves(db: Db, evidence: seq<Evidence>, notes: seq<NoteContext>, ids: seq<string>,
                           payload: seq<Citation>)
  {
    |payload| == |ids| && forall k :: 0 <= k < |ids| ==> CitationOf(db, evidence, notes, ids[k]) == Some(payload[k])
  }

  /** _citation_payload: one entry for each cited id in order, unless a lookup fails. */
  method CitationPayload(db: Db, evidence: seq<Evidence>, notes: seq<NoteContext>, draft: Draft)
    returns (payload: Option<seq<Citation>>)
    ensures payload.Some? ==> Resolves(db, evidence, notes, CitedIds(draft.spans), payload.value)
    ensures payload.None? <==>
            exists k: nat :: k < |CitedIds(draft.spans)|
                             && CitationOf(db, evidence, notes, CitedIds(draft.spans)[k]).None?
  {
    var entries: seq<Citation> := [];
    var spans := draft.spans;
    for i := 0 to |spans|
      invariant Resolves(db, evidence, notes, CitedIds(spans[..i]), entries)
    {
      assert spans[..i + 1][..i] == spans[..i];
      ghost var before := CitedIds(spans[..i]);
      var ids := spans[i].ids;
      for j := 0 to |ids|
        invariant Resolves(db, evidence, notes, before + ids[..j], entries)
      {
        var entry := CitationOf(db, evidence, notes, ids[j]);
        if entry.None? {
          CitedAt(spans, i, j);
          return None;
        }
        assert before + ids[..j + 1] == before + ids[..j] + [ids[j]];
        entries := entries + [entry.value];
      }
      assert ids[..|ids|] == ids;
    }
    assert spans[..|spans|] == spans;
    payload := Some(entries);
  }

  lemma {:induction false} CitedAt(spans: seq<Span>, i: nat, j: nat)
    requires i < |spans| && j < |spans[i].ids|
    ensures spans[i].ids[j] in CitedIds(spans)
    decreases |spans|
  {
    if i < |spans| - 1 {
      CitedAt(spans[..|spans| - 1], i, j);
    }
  }

  lemma {:induction false} CheckedIds(db: Db, manifest: Manifest, evidence: seq<Evidence>, ids: seq<string>)
    requires CheckIds(db, manifest, evidence, ids) == None
    ensures forall id :: id in ids ==> CheckId(db, manifest, evidence, id) == None
  {
    if ids != [] {
      CheckedIds(db, manifest, evidence, ids[..|ids| - 1]);
    }
  }

  lemma {:induction false} CheckedSpans(db: Db, manifest: Manifest, evidence: seq<Evidence>, spans: seq<Span>)
    requires CheckSpans(db, manifest, evidence, spans) == None
    ensures forall id :: id in CitedIds(spans) ==> CheckId(db, manifest, evidence, id) == None
    ensures forall k :: 0 <= k < |spans| ==> NonBlank(spans[k].text) && spans[k].ids != []
  {
    if spans != [] {
      var n := |spans| - 1;
      CheckedSpans(db, manifest, evidence, spans[..n]);
      CheckedIds(db, manifest, evidence, spans[n].ids);
    }
  }

  lemma {:induction false} IdsPass(db: Db, manifest: Manifest, evidence: seq<Evidence>, ids: seq<string>)
    requires forall id :: id in ids ==> CheckId(db, manifest, evidence, id) == None
    ensures CheckIds(db, manifest, evidence, ids) == None
  {
    if ids != [] {
      IdsPass(db, manifest, evidence, ids[..|ids| - 1]);
      assert ids[|ids| - 1] in ids;
    }
  }

  lemma {:induction false} SpansPass(db: Db, manifest: Manifest, evidence: seq<Evidence>, spans: seq<Span>)
    requires forall id :: id in CitedIds(spans) ==> CheckId(db, manifest, evidence, id) == None
    requires forall k :: 0 <= k < |spans| ==> NonBlank(spans[k].text) && spans[k].ids != []
    ensures CheckSpans(db, manifest, evidence, spans) == None
  {
    if spans != [] {
      SpansPass(db, manifest, evidence, spans[..|spans| - 1]);
      IdsPass(db, manifest, evidence, spans[|spans| - 1].ids);
    }
  }

  /** What may be cited under an id: the evidence or the note of that id, as the database has it now. */
  ghost predicate Permitted(db: Db, manifest: Manifest, evidence: seq<Evidence>, id: string) {
    if exists e :: e in evidence && e.id == id then
      FindEvidence(evidence, id).Some? && EvidencePermitted(db, manifest, FindEvidence(evidence, id).value.row)
    else exists n :: n in manifest.notes && n.id == id
  }

  /** Inside the frozen manifest, standing in the notebook, covered by a locator, and readable. */
  ghost predicate EvidencePermitted(db: Db, manifest: Manifest, row: Row) {
    && row.version in manifest.versions && row.version in db.readable
    && (row.node, row.version, row.source) in db.nodes
    && row.node in db.locators && exists l :: l in db.locators[row.node] && Spans(l, row)
  }

  predicate Spans(l: Locator, row: Row) {
    match (l.start, l.end)
    case (None, None) => true
    case (Some(start), Some(end)) => start <= row.start && row.end <= end
    case _ => false
  }

  lemma CheckIdExact(db: Db, manifest: Manifest, evidence: seq<Evidence>, id: string)
    ensures CheckId(db, manifest, evidence, id) == None <==> Permitted(db, manifest, evidence, id)
  {
    var item := FindEvidence(evidence, id);
    if item.Some? {
      var row := item.value.row;
      assert forall l :: Covers(l, row) <==> Spans(l, row);
    }
  }

  /** Which check an id fails first. */
  lemma CheckIdErrors(db: Db, manifest: Manifest, evidence: seq<Evidence>, id: string)
    ensures var error := CheckId(db, manifest, evidence, id); var item := FindEvidence(evidence, id);
            && (error == Some(UnsupportedId) <==>
                  (forall e :: e in evidence ==> e.id != id) && forall n :: n in manifest.notes ==> n.id != id)
            && (item.Some? ==> var row := item.value.row;
                  && (error == Some(OutsideManifest) <==> row.version !in manifest.versions)
                  && (error == Some(NotInNotebook) <==>
                        row.version in manifest.versions && (row.node, row.version, row.source) !in db.nodes)
                  && (error == Some(NoLocator) <==>
                        && row.version in manifest.versions && (row.node, row.version, row.source) in db.nodes
                        && forall l :: l in LocatorsOf(db, row.node) ==> !Spans(l, row))
                  && (error == Some(NotAuthorized) <==>
                        && row.version in manifest.versions && (row.node, row.version, row.source) in db.nodes
                        && (exists l :: l in LocatorsOf(db, row.node) && Spans(l, row))
                        && row.version !in db.readable))
            && (item.None? ==> error.None? || error == Some(UnsupportedId))
  {
    var item := FindEvidence(evidence, id);
    if item.Some? {
      assert forall l :: Covers(l, item.value.row) <==> Spans(l, item.value.row);
    }
  }

  /** The selected notes: refused when one repeats or is not readable, else those revisions in order. */
  lemma SelectedNotes(selected: seq<nat>, readable: map<nat, NoteRow>)
    ensures SelectNotes(selected, readable).Ok? <==>
            Distinct(selected) && forall s :: s in selected ==> s in readable
    ensures SelectNotes(selected, readable).Ok? ==>
              var notes := SelectNotes(selected, readable).value;
              && |notes| == |selected|
              && forall k :: 0 <= k < |notes| ==>
                   && notes[k].revision == selected[k] && notes[k].note == readable[selected[k]].note
                   && notes[k].title == readable[selected[k]].title && notes[k].text == readable[selected[k]].text
    ensures SelectNotes(selected, readable) == Err(NotesNotUnique) <==> !Distinct(selected)
    ensures SelectNotes(selected, readable).Err? && Distinct(selected) ==>
              SelectNotes(selected, readable) == Err(NoteUnavailable)
  {
    if SelectNotes(selected, readable).Ok? {
      forall s | s in selected ensures s in readable {}
    }
  }

  /**
   A draft validates exactly when the notes still resolve to the frozen ones and every span cites, and
   only what is allowed.
   */
  lemma ValidationExact(db: Db, request: Request, manifest: Manifest, evidence: seq<Evidence>, draft: Draft)
    ensures Validation(db, request, manifest, evidence, draft) == None
       <==> SelectNotes(request.selectedNotes, db.notes) == Ok(manifest.notes)
            && (forall k :: 0 <= k < |draft.spans| ==> NonBlank(draft.spans[k].text) && draft.spans[k].ids != [])
            && (forall id :: id in CitedIds(draft.spans) ==> Permitted(db, manifest, evidence, id))
  {
    forall id: string ensures CheckId(db, manifest, evidence, id) == None <==> Permitted(db, manifest, evidence, id) {
      CheckIdExact(db, manifest, evidence, id);
    }
    if Validation(db, request, manifest, evidence, draft) == None {
      CheckedSpans(db, manifest, evidence, draft.spans);
    } else if (forall k :: 0 <= k < |draft.spans| ==> NonBlank(draft.spans[k].text) && draft.spans[k].ids != [])
              && (forall id :: id in CitedIds(draft.spans) ==> CheckId(db, manifest, evidence, id) == None) {
      SpansPass(db, manifest, evidence, draft.spans);
    }
  }

  /** An item that validates has a locator to cite. */
  lemma CheckedIdResolves(db: Db, manifest: Manifest, evidence: seq<Evidence>, id: string)
    requires CheckId(db, manifest, evidence, id) == None
    ensures CitationOf(db, evidence, manifest.notes, id).Some?
    ensures var item := FindEvidence(evidence, id);
            item.Some? ==> item.value.row.version in manifest.versions && item.value.row.version in db.readable
  {
  }

  lemma ResolvedIsKnown(db: Db, evidence: seq<Evidence>, notes: seq<NoteContext>, id: string)
    requires CitationOf(db, evidence, notes, id).Some?
    ensures FindEvidence(evidence, id).Some? || FindNote(notes, id).Some?
  {
  }

  lemma NumberedIds(results: seq<Row>, budget: int, selected: seq<nat>, readable: map<nat, NoteRow>)
    ensures EvidenceNumbered(Assembled(results, budget))
    ensures SelectNotes(selected, readable).Ok? ==> NotesNumbered(SelectNotes(selected, readable).value)
  {
  }

  /** Evidence and note ids of one answer name one item each. */
  ghost predicate NamesOne(evidence: seq<Evidence>, notes: seq<NoteContext>, id: string) {
    if FindEvidence(evidence, id).Some? then
      (exists k: nat :: OnlyEvidence(evidence, id, k)) && forall n :: n in notes ==> n.id != id
    else exists k: nat :: OnlyNote(notes, id, k)
  }

  predicate OnlyEvidence(evidence: seq<Evidence>, id: string, k: nat) {
    k < |evidence| && forall i :: 0 <= i < |evidence| ==> (evidence[i].id == id <==> i == k)
  }

  predicate OnlyNote(notes: seq<NoteContext>, id: string, k: nat) {
    k < |notes| && forall i :: 0 <= i < |notes| ==> (notes[i].id == id <==> i == k)
  }

  predicate EvidenceNumbered(evidence: seq<Evidence>) {
    forall k :: 0 <= k < |evidence| ==> evidence[k].id == EvidenceId(k + 1)
  }

  predicate NotesNumbered(notes: seq<NoteContext>) {
    forall k :: 0 <= k < |notes| ==> notes[k].id == NoteId(k + 1)
  }

  lemma OneEvidence(evidence: seq<Evidence>, k: nat)
    requires EvidenceNumbered(evidence) && k < |evidence|
    ensures OnlyEvidence(evidence, evidence[k].id, k)
  {
    forall i | 0 <= i < |evidence| ensures evidence[i].id == evidence[k].id <==> i == k {
      if evidence[i].id == evidence[k].id { EvidenceIdsDiffer(i + 1, k + 1); }
    }
  }

  lemma OneNote(notes: seq<NoteContext>, k: nat)
    requires NotesNumbered(notes) && k < |notes|
    ensures OnlyNote(notes, notes[k].id, k)
  {
    forall i | 0 <= i < |notes| ensures notes[i].id == notes[k].id <==> i == k {
      if notes[i].id == notes[k].id { NoteIdsDiffer(i + 1, k + 1); }
    }
  }

  lemma EvidenceIsNoNote(evidence: seq<Evidence>, notes: seq<NoteContext>, k: nat)
    requires EvidenceNumbered(evidence) && NotesNumbered(notes) && k < |evidence|
    ensures forall n :: n in notes ==> n.id != evidence[k].id
  {
    assert evidence[k].id[0] == 'e';
    forall j | 0 <= j < |notes| ensures notes[j].id != evidence[k].id {
      assert notes[j].id[0] == 'n';
    }
  }

  lemma IdsNameOne(evidence: seq<Evidence>, notes: seq<NoteContext>, id: string)
    requires EvidenceNumbered(evidence) && NotesNumbered(notes)
    requires FindEvidence(evidence, id).Some? || FindNote(notes, id).Some?
    ensures NamesOne(evidence, notes, id)
  {
    if FindEvidence(evidence, id).Some? {
      var k: nat :| k < |evidence| && evidence[k] == FindEvidence(evidence, id).value;
      OneEvidence(evidence, k);
      EvidenceIsNoNote(evidence, notes, k);
    } else {
      var k: nat :| k < |notes| && notes[k] == FindNote(notes, id).value;
      OneNote(notes, k);
    }
  }

  /**
   After validation every cited id names exactly one item, source evidence inside the frozen manifest
   or one of its notes, and the payload never fails a lookup.
   */
  lemma ValidatedCitations(db: Db, request: Request, manifest: Manifest, results: seq<Row>, budget: int, draft: Draft,
                           k: nat)
    requires Validation(db, request, manifest, Assembled(results, budget), draft) == None
    requires k < |CitedIds(draft.spans)|
    ensures var evidence := Assembled(results, budget);
            var id := CitedIds(draft.spans)[k];
            && CitationOf(db, evidence, manifest.notes, id).Some?
            && Cites(db, evidence, manifest.notes, id, CitationOf(db, evidence, manifest.notes, id).value)
            && NamesOne(evidence, manifest.notes, id)
            && (FindEvidence(evidence, id).Some? ==>
                  FindEvidence(evidence, id).value.row.version in manifest.versions
                  && FindEvidence(evidence, id).value.row.version in db.readable)
  {
    var evidence, id := Assembled(results, budget), CitedIds(draft.spans)[k];
    assert CheckId(db, manifest, evidence, id) == None by {
      CheckedSpans(db, manifest, evidence, draft.spans);
      assert id in CitedIds(draft.spans);
    }
    CheckedIdResolves(db, manifest, evidence, id);
    CitationCites(db, evidence, manifest.notes, id);
    ResolvedIsKnown(db, evidence, manifest.notes, id);
    NumberedIds(results, budget, request.selectedNotes, db.notes);
    IdsNameOne(evidence, manifest.notes, id);
  }

  // ------------------------------------------------------------------- publication

  datatype Answer =
    | Abstained
    | Published(spans: seq<Span>, citations: seq<Citation>)
    | Refused(error: Error)
    | Cancelled

  /** publish: validate, then resolve the citations, in one transaction. */
  method Publish(db: Db, request: Request, manifest: Manifest, evidence: seq<Evidence>, draft: Draft)
    returns (answer: Answer)
    ensures Publishes(db, request, manifest, evidence, draft, answer)
  {
    if draft.insufficient {
      if draft.spans != [] {
        return Refused(InsufficientWithSpans);
      }
      return Abstained;
    }
    var error := Validate(db, request, manifest, evidence, draft);
    if error.Some? {
      return Refused(error.value);
    }
    var payload := CitationPayload(db, evidence, manifest.notes, draft);
    if payload.None? {
      PayloadFound(db, manifest, evidence, draft);
      assert false;
    }
    answer := Published(draft.spans, payload.value);
  }

  lemma PayloadFound(db: Db, manifest: Manifest, evidence: seq<Evidence>, draft: Draft)
    requires CheckSpans(db, manifest, evidence, draft.spans) == None
    ensures forall k :: 0 <= k < |CitedIds(draft.spans)| ==>
            CitationOf(db, evidence, manifest.notes, CitedIds(draft.spans)[k]).Some?
  {
    CheckedSpans(db, manifest, evidence, draft.spans);
    forall k | 0 <= k < |CitedIds(draft.spans)|
      ensures CitationOf(db, evidence, manifest.notes, CitedIds(draft.spans)[k]).Some?
    {
      assert CitedIds(draft.spans)[k] in CitedIds(draft.spans);
      CheckedIdResolves(db, manifest, evidence, CitedIds(draft.spans)[k]);
    }
  }

  /** How a completed draft ends: refused, a limitation, or published with one citation for each cited id. */
  ghost predicate Publishes(db: Db, request: Request, manifest: Manifest, evidence: seq<Evidence>, draft: Draft,
                            answer: Answer)
  {
    if draft.insufficient then answer == if draft.spans != [] then Refused(InsufficientWithSpans) else Abstained
    else
      var error := Validation(db, request, manifest, evidence, draft);
      if error.Some? then answer == Refused(error.value)
      else answer.Published? && answer.spans == draft.spans
           && Resolves(db, evidence, manifest.notes, CitedIds(draft.spans), answer.citations)
  }

  /** Each citation of a published answer cites its id, in the order of the spans. */
  lemma PublishedCites(db: Db, request: Request, manifest: Manifest, evidence: seq<Evidence>, draft: Draft,
                       answer: Answer, k: nat)
    requires Publishes(db, request, manifest, evidence, draft, answer) && answer.Published?
    requires k < |CitedIds(draft.spans)|
    ensures |answer.citations| == |CitedIds(draft.spans)|
    ensures Cites(db, evidence, manifest.notes, CitedIds(draft.spans)[k], answer.citations[k])
    ensures Permitted(db, manifest, evidence, CitedIds(draft.spans)[k])
  {
    var id := CitedIds(draft.spans)[k];
    assert id in CitedIds(draft.spans);
    CitationCites(db, evidence, manifest.notes, id);
    ValidationExact(db, request, manifest, evidence, draft);
  }

  /** The draft has only one way to end. */
  lemma PublishesOnce(db: Db, request: Request, manifest: Manifest, evidence: seq<Evidence>, draft: Draft, a: Answer,
                      b: Answer)
    requires Publishes(db, request, manifest, evidence, draft, a) &&
             Publishes(db, request, manifest, evidence, draft, b)
    ensures a == b
  {
    if a.Published? {
      assert a.citations == b.citations;
    }
  }

  /** generate, with the draft the provider completes. */
  method Generate(db: Db, request: Request, manifest: Manifest, evidence: seq<Evidence>, draft: Draft)
    returns (answer: Answer)
    ensures if evidence == [] && manifest.notes == [] then answer == Abstained
            else Publishes(db, request, manifest, evidence, draft, answer)
  {
    if evidence == [] && manifest.notes == [] {
      return Abstained;
    }
    answer := Publish(db, request, manifest, evidence, draft);
  }

  /** The first of the checks that finds the turn cancelled; `count` when none of the first `count` does. */
  function FirstCancelled(cancelled: nat -> bool, from: nat, count: nat): (k: nat)
    requires from <= count
    ensures from <= k <= count && (k < count ==> cancelled(k)) && forall i :: from <= i < k ==> !cancelled(i)
    decreases count - from
  {
    if from == count || cancelled(from) then from else FirstCancelled(cancelled, from + 1, count)
  }

  /**
   stream_generate: tokens are yielded until a check finds the turn cancelled; only an uncancelled
   turn is published, and it ends as `generate` would end with the same draft.
   */
  method StreamGenerate(db: Db, request: Request, manifest: Manifest, evidence: seq<Evidence>, tokens: seq<string>,
                        draft: Draft, cancelled: nat -> bool)
    returns (yielded: seq<string>, answer: Answer)
    ensures evidence == [] && manifest.notes == [] ==> yielded == [] && answer == Abstained
    ensures !(evidence == [] && manifest.notes == []) ==>
      var stop := FirstCancelled(cancelled, 0, |tokens| + 1);
      && (stop <= |tokens| ==> yielded == tokens[..stop] && answer == Cancelled)
      && (stop == |tokens| + 1 ==> yielded == tokens && Publishes(db, request, manifest, evidence, draft, answer))
  {
    yielded := [];
    if evidence == [] && manifest.notes == [] {
      return [], Abstained;
    }
    var next := 0;
    while next < |tokens|
      invariant next <= |tokens| && yielded == tokens[..next]
      invariant FirstCancelled(cancelled, 0, |tokens| + 1) == FirstCancelled(cancelled, next, |tokens| + 1)
      decreases |tokens| - next
    {
      var token := tokens[next];
      if cancelled(next) {
        return yielded, Cancelled;
      }
      yielded := yielded + [token];
      next := next + 1;
    }
    if cancelled(next) {
      return yielded, Cancelled;
    }
    answer := Publish(db, request, manifest, evidence, draft);
  }

  /** A published answer has text and evidence in every span. */
  lemma PublishedSpansCite(db: Db, request: Request, manifest: Manifest, evidence: seq<Evidence>, draft: Draft,
                           answer: Answer, k: nat)
    requires Publishes(db, request, manifest, evidence, draft, answer) && answer.Published? && k < |answer.spans|
    ensures NonBlank(answer.spans[k].text) && answer.spans[k].ids != []
  {
    CheckedSpans(db, manifest, evidence, draft.spans);
  }
}
