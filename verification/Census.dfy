/**
 The requirement census: ledger entries are matched to rescanned guide occurrences by fingerprint and
 anchor, and what does not match is reported.
 */
module Census {
  import opened Common

  /** A digest of source, term, occurrence number and normalized statement. */
  datatype Fingerprint = Fingerprint(digest: string)

  datatype Requirement = Requirement(id: string, line: int, occurrence: int, fingerprint: Fingerprint,
                                     classification: string)

  datatype Occurrence = Occurrence(source: string, line: int, occurrence: int, term: string, fingerprint: Fingerprint)

  datatype Finding =
    | DuplicatedEntry(id: string, sharedWith: string)
    | RepeatedOccurrence(source: string, line: int)
    | Removed(id: string)
    | Renumbered(id: string, line: int, occurrence: int)
    | Added(added: Occurrence)
    | Narrative(id: string)

  // ----------------------------------------------------------------- specification

  /** The id of the first entry with a fingerprint. */
  function FirstEntry(ledger: seq<Requirement>, f: Fingerprint): Option<string> {
    if ledger == [] then None
    else if ledger[0].fingerprint == f then Some(ledger[0].id)
    else FirstEntry(ledger[1..], f)
  }

  function FirstOccurrence(guide: seq<Occurrence>, f: Fingerprint): (r: Option<Occurrence>)
    ensures r.Some? ==> r.value in guide && r.value.fingerprint == f
    ensures r.None? ==> forall o :: o in guide ==> o.fingerprint != f
  {
    if guide == [] then None
    else if guide[0].fingerprint == f then Some(guide[0])
    else FirstOccurrence(guide[1..], f)
  }

  predicate InLedger(ledger: seq<Requirement>, f: Fingerprint) {
    exists k: nat :: k < |ledger| && ledger[k].fingerprint == f
  }

  predicate InGuide(guide: seq<Occurrence>, f: Fingerprint) {
    exists k: nat :: k < |guide| && guide[k].fingerprint == f
  }

  /** Entries whose fingerprint an earlier entry has. */
  function DuplicatedEntries(ledger: seq<Requirement>): seq<Finding> {
    if ledger == [] then []
    else
      var n := |ledger| - 1;
      var first := FirstEntry(ledger[..n], ledger[n].fingerprint);
      DuplicatedEntries(ledger[..n]) + if first.Some? then [DuplicatedEntry(ledger[n].id, first.value)] else []
  }

  function RepeatedOccurrences(guide: seq<Occurrence>): seq<Finding> {
    if guide == [] then []
    else
      var n := |guide| - 1;
      RepeatedOccurrences(guide[..n])
      + if FirstOccurrence(guide[..n], guide[n].fingerprint).Some?
        then [RepeatedOccurrence(guide[n].source, guide[n].line)] else []
  }

  /** The first occurrence of each fingerprint, in order. */
  function Firsts(guide: seq<Occurrence>): seq<Occurrence> {
    if guide == [] then []
    else
      var n := |guide| - 1;
      Firsts(guide[..n]) + if FirstOccurrence(guide[..n], guide[n].fingerprint).Some? then [] else [guide[n]]
  }

  predicate SameAnchor(r: Requirement, o: Occurrence) { r.line == o.line && r.occurrence == o.occurrence }

  predicate Matches(r: Requirement, guide: seq<Occurrence>) {
    var o := FirstOccurrence(guide, r.fingerprint);
    o.Some? && SameAnchor(r, o.value)
  }

  function MatchFinding(r: Requirement, guide: seq<Occurrence>): seq<Finding> {
    var o := FirstOccurrence(guide, r.fingerprint);
    if o.None? then [Removed(r.id)]
    else if !SameAnchor(r, o.value) then [Renumbered(r.id, o.value.line, o.value.occurrence)]
    else []
  }

  function MatchFindings(ledger: seq<Requirement>, guide: seq<Occurrence>): seq<Finding> {
    if ledger == [] then []
    else MatchFindings(ledger[..|ledger| - 1], guide) + MatchFinding(ledger[|ledger| - 1], guide)
  }

  function Matched(ledger: seq<Requirement>, guide: seq<Occurrence>): nat {
    if ledger == [] then 0
    else Matched(ledger[..|ledger| - 1], guide) + if Matches(ledger[|ledger| - 1], guide) then 1 else 0
  }

  function Unmapped(firsts: seq<Occurrence>, ledger: seq<Requirement>): seq<Finding> {
    if firsts == [] then []
    else
      var o := firsts[|firsts| - 1];
      Unmapped(firsts[..|firsts| - 1], ledger) + if InLedger(ledger, o.fingerprint) then [] else [Added(o)]
  }

  /** The last entry of an id, as a dictionary keeps it. */
  function ById(ledger: seq<Requirement>, id: string): Option<Requirement> {
    if ledger == [] then None
    else if ledger[|ledger| - 1].id == id then Some(ledger[|ledger| - 1])
    else ById(ledger[..|ledger| - 1], id)
  }

  predicate NarrativeOk(ledger: seq<Requirement>, id: string) {
    var r := ById(ledger, id);
    r.Some? && r.value.classification == "narrative"
  }

  function NarrativeDrift(ledger: seq<Requirement>, ids: seq<string>): seq<Finding> {
    if ids == [] then []
    else
      NarrativeDrift(ledger, ids[..|ids| - 1])
      + if NarrativeOk(ledger, ids[|ids| - 1]) then [] else [Narrative(ids[|ids| - 1])]
  }

  /** What the census reports about the correspondence of ledger and guide. */
  function CensusFindings(ledger: seq<Requirement>, guide: seq<Occurrence>): seq<Finding> {
    DuplicatedEntries(ledger) + RepeatedOccurrences(guide) + MatchFindings(ledger, guide) +
      Unmapped(Firsts(guide), ledger)
  }

  // -------------------------------------------------------------------------- code

  ghost predicate LedgerIndex(seen: map<Fingerprint, string>, ledger: seq<Requirement>) {
    forall f :: LedgerEntry(seen, ledger, f)
  }

  ghost predicate LedgerEntry(seen: map<Fingerprint, string>, ledger: seq<Requirement>, f: Fingerprint) {
    FirstEntry(ledger, f) == if f in seen then Some(seen[f]) else None
  }

  ghost predicate GuideIndex(byFingerprint: map<Fingerprint, Occurrence>, guide: seq<Occurrence>) {
    forall f :: GuideEntry(byFingerprint, guide, f)
  }

  ghost predicate GuideEntry(byFingerprint: map<Fingerprint, Occurrence>, guide: seq<Occurrence>, f: Fingerprint) {
    FirstOccurrence(guide, f) == if f in byFingerprint then Some(byFingerprint[f]) else None
  }

  lemma {:induction false} FirstEntryPush(ledger: seq<Requirement>, r: Requirement, f: Fingerprint)
    ensures FirstEntry(ledger + [r], f)
         == if FirstEntry(ledger, f).Some? then FirstEntry(ledger, f)
            else if r.fingerprint == f then Some(r.id) else None
  {
    if ledger == [] {
      assert (ledger + [r])[1..] == [];
    } else {
      assert (ledger + [r])[1..] == ledger[1..] + [r];
      FirstEntryPush(ledger[1..], r, f);
    }
  }

  lemma {:induction false} FirstOccurrencePush(guide: seq<Occurrence>, o: Occurrence, f: Fingerprint)
    ensures FirstOccurrence(guide + [o], f)
         == if FirstOccurrence(guide, f).Some? then FirstOccurrence(guide, f)
            else if o.fingerprint == f then Some(o) else None
  {
    if guide == [] {
      assert (guide + [o])[1..] == [];
    } else {
      assert (guide + [o])[1..] == guide[1..] + [o];
      FirstOccurrencePush(guide[1..], o, f);
    }
  }

  lemma LedgerIndexPush(seen: map<Fingerprint, string>, ledger: seq<Requirement>, r: Requirement)
    requires LedgerIndex(seen, ledger)
    ensures LedgerEntry(seen, ledger, r.fingerprint)
    ensures LedgerIndex(if r.fingerprint in seen then seen else seen[r.fingerprint := r.id], ledger + [r])
  {
    assert LedgerEntry(seen, ledger, r.fingerprint);
    var after, more := if r.fingerprint in seen then seen else seen[r.fingerprint := r.id], ledger + [r];
    forall f ensures LedgerEntry(after, more, f) {
      assert LedgerEntry(seen, ledger, f);
      FirstEntryPush(ledger, r, f);
    }
  }

  lemma GuideIndexPush(byFingerprint: map<Fingerprint, Occurrence>, guide: seq<Occurrence>, o: Occurrence)
    requires GuideIndex(byFingerprint, guide)
    ensures GuideEntry(byFingerprint, guide, o.fingerprint)
    ensures GuideIndex(if o.fingerprint in byFingerprint then byFingerprint
                       else byFingerprint[o.fingerprint := o],
                       guide + [o])
  {
    assert GuideEntry(byFingerprint, guide, o.fingerprint);
    var after := if o.fingerprint in byFingerprint then byFingerprint else byFingerprint[o.fingerprint := o];
    var more := guide + [o];
    forall f ensures GuideEntry(after, more, f) {
      assert GuideEntry(byFingerprint, guide, f);
      FirstOccurrencePush(guide, o, f);
    }
  }

  /** _ledger_fingerprint_index. */
  method LedgerFingerprintIndex(ledger: seq<Requirement>)
    returns (seen: map<Fingerprint, string>, findings: seq<Finding>)
    ensures LedgerIndex(seen, ledger) && findings == DuplicatedEntries(ledger)
  {
    seen, findings := map[], [];
    for i := 0 to |ledger|
      invariant LedgerIndex(seen, ledger[..i]) && findings == DuplicatedEntries(ledger[..i])
    {
      assert ledger[..i + 1] == ledger[..i] + [ledger[i]] && ledger[..i + 1][..i] == ledger[..i];
      LedgerIndexPush(seen, ledger[..i], ledger[i]);
      var f := ledger[i].fingerprint;
      if f in seen {
        findings := findings + [DuplicatedEntry(ledger[i].id, seen[f])];
      } else {
        seen := seen[f := ledger[i].id];
      }
    }
    assert ledger[..|ledger|] == ledger;
  }

  /** _guide_occurrence_index; the dictionary lists its values in insertion order. */
  method GuideOccurrenceIndex(guide: seq<Occurrence>)
    returns (byFingerprint: map<Fingerprint, Occurrence>, order: seq<Occurrence>, findings: seq<Finding>)
    ensures GuideIndex(byFingerprint, guide) && order == Firsts(guide) && findings == RepeatedOccurrences(guide)
  {
    byFingerprint, order, findings := map[], [], [];
    for i := 0 to |guide|
      invariant GuideIndex(byFingerprint, guide[..i])
      invariant order == Firsts(guide[..i]) && findings == RepeatedOccurrences(guide[..i])
    {
      assert guide[..i + 1] == guide[..i] + [guide[i]] && guide[..i + 1][..i] == guide[..i];
      GuideIndexPush(byFingerprint, guide[..i], guide[i]);
      var f := guide[i].fingerprint;
      if f in byFingerprint {
        findings := findings + [RepeatedOccurrence(guide[i].source, guide[i].line)];
      } else {
        byFingerprint := byFingerprint[f := guide[i]];
        order := order + [guide[i]];
      }
    }
    assert guide[..|guide|] == guide;
  }

  /** _match_ledger_to_guide. */
  method MatchLedgerToGuide(ledger: seq<Requirement>, byFingerprint: map<Fingerprint, Occurrence>,
                            ghost guide: seq<Occurrence>)
    returns (findings: seq<Finding>, matched: nat)
    requires GuideIndex(byFingerprint, guide)
    ensures findings == MatchFindings(ledger, guide) && matched == Matched(ledger, guide)
  {
    findings, matched := [], 0;
    for i := 0 to |ledger|
      invariant findings == MatchFindings(ledger[..i], guide) && matched == Matched(ledger[..i], guide)
    {
      var r := ledger[i];
      assert ledger[..i + 1][..i] == ledger[..i] && ledger[..i + 1][i] == r;
      assert GuideEntry(byFingerprint, guide, r.fingerprint);
      assert MatchFindings(ledger[..i + 1], guide) == findings + MatchFinding(r, guide);
      if r.fingerprint !in byFingerprint {
        findings := findings + [Removed(r.id)];
      } else {
        var o := byFingerprint[r.fingerprint];
        if !SameAnchor(r, o) {
          findings := findings + [Renumbered(r.id, o.line, o.occurrence)];
        } else {
          matched := matched + 1;
        }
      }
    }
    assert ledger[..|ledger|] == ledger;
  }

  lemma {:induction false} InLedgerByFirst(ledger: seq<Requirement>, f: Fingerprint)
    ensures InLedger(ledger, f) <==> FirstEntry(ledger, f).Some?
  {
    if ledger != [] {
      InLedgerByFirst(ledger[1..], f);
      if k: nat :| k < |ledger| && ledger[k].fingerprint == f {
        if k > 0 { assert ledger[1..][k - 1].fingerprint == f; }
      }
      if k: nat :| k < |ledger[1..]| && ledger[1..][k].fingerprint == f { assert ledger[k + 1].fingerprint == f; }
    }
  }

  /** _unmapped_occurrences. */
  method UnmappedOccurrences(order: seq<Occurrence>, seen: map<Fingerprint, string>, ghost ledger: seq<Requirement>)
    returns (findings: seq<Finding>)
    requires LedgerIndex(seen, ledger)
    ensures findings == Unmapped(order, ledger)
  {
    findings := [];
    for i := 0 to |order|
      invariant findings == Unmapped(order[..i], ledger)
    {
      var o := order[i];
      assert order[..i + 1][..i] == order[..i] && order[..i + 1][i] == o;
      assert LedgerEntry(seen, ledger, o.fingerprint);
      InLedgerByFirst(ledger, o.fingerprint);
      if o.fingerprint !in seen {
        findings := findings + [Added(o)];
      }
    }
    assert order[..|order|] == order;
  }

  /** _narrative_drift. */
  method FindNarrativeDrift(ledger: seq<Requirement>, ids: seq<string>) returns (findings: seq<Finding>)
    ensures findings == NarrativeDrift(ledger, ids)
  {
    findings := [];
    for i := 0 to |ids|
      invariant findings == NarrativeDrift(ledger, ids[..i])
    {
      assert ids[..i + 1][..i] == ids[..i];
      var r := ById(ledger, ids[i]);
      if r.None? || r.value.classification != "narrative" {
        findings := findings + [Narrative(ids[i])];
      }
    }
    assert ids[..|ids|] == ids;
  }

  /** check_occurrence_census. */
  method CheckCensus(ledger: seq<Requirement>, guide: seq<Occurrence>, narrativeIds: seq<string>)
    returns (findings: seq<Finding>, matched: nat)
    ensures findings == CensusFindings(ledger, guide) + NarrativeDrift(ledger, narrativeIds)
    ensures matched == Matched(ledger, guide)
  {
    var seen, duplicated := LedgerFingerprintIndex(ledger);
    var byFingerprint, order, repeated := GuideOccurrenceIndex(guide);
    var unmatched;
    unmatched, matched := MatchLedgerToGuide(ledger, byFingerprint, guide);
    var added := UnmappedOccurrences(order, seen, ledger);
    var narrative := FindNarrativeDrift(ledger, narrativeIds);
    findings := duplicated + repeated + unmatched + added + narrative;
  }

  // ---------------------------------------------------------------------- theorems

  function CountRemoved(findings: seq<Finding>): nat {
    if findings == [] then 0
    else CountRemoved(findings[..|findings| - 1]) + if findings[|findings| - 1].Removed? then 1 else 0
  }

  function CountRenumbered(findings: seq<Finding>): nat {
    if findings == [] then 0
    else CountRenumbered(findings[..|findings| - 1]) + if findings[|findings| - 1].Renumbered? then 1 else 0
  }

  /** Every ledger entry is matched, removed or renumbered, and only once. */
  lemma {:induction false} EntriesAccountedFor(ledger: seq<Requirement>, guide: seq<Occurrence>)
    ensures var findings := MatchFindings(ledger, guide);
            Matched(ledger, guide) + CountRemoved(findings) + CountRenumbered(findings) == |ledger|
            && CountRemoved(findings) + CountRenumbered(findings) == |findings|
  {
    if ledger != [] {
      var n := |ledger| - 1;
      EntriesAccountedFor(ledger[..n], guide);
      var before, here := MatchFindings(ledger[..n], guide), MatchFinding(ledger[n], guide);
      if here != [] {
        assert (before + here)[..|before|] == before;
      } else {
        assert before + here == before;
      }
    }
  }

  predicate DistinctEntries(ledger: seq<Requirement>) {
    forall i, j :: 0 <= i < j < |ledger| ==> ledger[i].fingerprint != ledger[j].fingerprint
  }

  predicate DistinctOccurrences(guide: seq<Occurrence>) {
    forall i, j :: 0 <= i < j < |guide| ==> guide[i].fingerprint != guide[j].fingerprint
  }

  /** Entry i goes with occurrence `to[i]`: same fingerprint and anchor, each occurrence used exactly once. */
  ghost predicate Correspondence(to: seq<nat>, ledger: seq<Requirement>, guide: seq<Occurrence>) {
    && |to| == |ledger| == |guide|
    && Distinct(to)
    && forall i :: 0 <= i < |to| ==>
      to[i] < |guide| && ledger[i].fingerprint == guide[to[i]].fingerprint && SameAnchor(ledger[i], guide[to[i]])
  }

  lemma {:induction false} NoDuplicates(ledger: seq<Requirement>)
    ensures DuplicatedEntries(ledger) == [] <==> DistinctEntries(ledger)
  {
    if ledger != [] {
      var n := |ledger| - 1;
      NoDuplicates(ledger[..n]);
      InLedgerByFirst(ledger[..n], ledger[n].fingerprint);
      if k: nat :| k < |ledger[..n]| && ledger[..n][k].fingerprint == ledger[n].fingerprint {
        assert ledger[k].fingerprint == ledger[n].fingerprint;
      }
      if DuplicatedEntries(ledger) == [] {
        forall i, j | 0 <= i < j < |ledger| ensures ledger[i].fingerprint != ledger[j].fingerprint {
          if j == n { assert ledger[..n][i].fingerprint != ledger[n].fingerprint; }
          else { assert ledger[..n][i].fingerprint != ledger[..n][j].fingerprint; }
        }
      }
    }
  }

  lemma InGuideByFirst(guide: seq<Occurrence>, f: Fingerprint)
    ensures InGuide(guide, f) <==> FirstOccurrence(guide, f).Some?
  {
    if FirstOccurrence(guide, f).Some? {
      var k: nat :| k < |guide| && guide[k] == FirstOccurrence(guide, f).value;
    }
  }

  lemma {:induction false} NoRepeats(guide: seq<Occurrence>)
    ensures RepeatedOccurrences(guide) == [] <==> DistinctOccurrences(guide)
  {
    if guide != [] {
      var n := |guide| - 1;
      NoRepeats(guide[..n]);
      InGuideByFirst(guide[..n], guide[n].fingerprint);
      if k: nat :| k < |guide[..n]| && guide[..n][k].fingerprint == guide[n].fingerprint {
        assert guide[k].fingerprint == guide[n].fingerprint;
      }
      if RepeatedOccurrences(guide) == [] {
        forall i, j | 0 <= i < j < |guide| ensures guide[i].fingerprint != guide[j].fingerprint {
          if j == n { assert guide[..n][i].fingerprint != guide[n].fingerprint; }
          else { assert guide[..n][i].fingerprint != guide[..n][j].fingerprint; }
        }
      }
    }
  }

  lemma {:induction false} AllFirsts(guide: seq<Occurrence>)
    requires RepeatedOccurrences(guide) == []
    ensures Firsts(guide) == guide
  {
    if guide != [] {
      var n := |guide| - 1;
      assert FirstOccurrence(guide[..n], guide[n].fingerprint).None?;
      AllFirsts(guide[..n]);
      assert guide == guide[..n] + [guide[n]];
    }
  }

  predicate MatchesAt(ledger: seq<Requirement>, guide: seq<Occurrence>, i: int) {
    0 <= i < |ledger| ==> Matches(ledger[i], guide)
  }

  lemma EmptyJoin<T>(a: seq<T>, b: seq<T>)
    ensures a + b == [] <==> a == [] && b == []
  {
    assert |a + b| == |a| + |b|;
  }

  lemma {:induction false} AllMatch(ledger: seq<Requirement>, guide: seq<Occurrence>)
    ensures MatchFindings(ledger, guide) == [] <==> forall i :: MatchesAt(ledger, guide, i)
  {
    if ledger != [] {
      var n := |ledger| - 1;
      var front := ledger[..n];
      AllMatch(front, guide);
      EmptyJoin(MatchFindings(front, guide), MatchFinding(ledger[n], guide));
      assert MatchFinding(ledger[n], guide) == [] <==> MatchesAt(ledger, guide, n);
      if MatchFindings(ledger, guide) == [] {
        forall i ensures MatchesAt(ledger, guide, i) {
          assert MatchesAt(front, guide, i);
        }
      }
      if forall i :: MatchesAt(ledger, guide, i) {
        forall i ensures MatchesAt(front, guide, i) {
          assert MatchesAt(ledger, guide, i);
        }
      }
    }
  }

  lemma {:induction false} NoneAdded(firsts: seq<Occurrence>, ledger: seq<Requirement>)
    ensures Unmapped(firsts, ledger) == [] <==>
            forall i :: 0 <= i < |firsts| ==> InLedger(ledger, firsts[i].fingerprint)
  {
    if firsts != [] {
      NoneAdded(firsts[..|firsts| - 1], ledger);
    }
  }

  /** The census is silent on the correspondence exactly under these conditions. */
  lemma SilentWhen(ledger: seq<Requirement>, guide: seq<Occurrence>)
    ensures CensusFindings(ledger, guide) == []
       <==> DistinctEntries(ledger) && DistinctOccurrences(guide)
            && (forall i :: MatchesAt(ledger, guide, i))
            && (forall j :: 0 <= j < |guide| ==> InLedger(ledger, guide[j].fingerprint))
  {
    NoDuplicates(ledger);
    NoRepeats(guide);
    if RepeatedOccurrences(guide) == [] { AllFirsts(guide); }
    AllMatch(ledger, guide);
    NoneAdded(Firsts(guide), ledger);
  }

  function Below(n: nat): (r: set<nat>)
    ensures |r| == n
    ensures forall k: nat :: k in r <==> k < n
  {
    if n == 0 then {} else Below(n - 1) + {n - 1}
  }

  lemma {:induction false} NatsFit(s: seq<nat>, n: nat)
    requires Distinct(s) && |s| == n && forall i :: 0 <= i < |s| ==> s[i] < n
    ensures forall k: nat :: k < n ==> k in s
  {
    var values := set x | x in s;
    DistinctSize(s);
    if k: nat :| k < n && k !in s {
      assert k in Below(n) && values <= Below(n) - {k};
      SubsetSize(values, Below(n) - {k});
      assert false;
    }
  }

  lemma {:induction false} DistinctSize<T>(s: seq<T>)
    requires forall i, j :: 0 <= i < j < |s| ==> s[i] != s[j]
    ensures |set x | x in s| == |s|
  {
    if s != [] {
      var n := |s| - 1;
      DistinctSize(s[..n]);
      assert (set x | x in s) == (set x | x in s[..n]) + {s[n]};
    }
  }

  lemma {:induction false} SubsetSize<T>(a: set<T>, b: set<T>)
    requires a <= b
    ensures |a| <= |b|
  {
    if a != {} {
      var x :| x in a;
      SubsetSize(a - {x}, b - {x});
    }
  }

  function EntryPrints(ledger: seq<Requirement>): (r: seq<Fingerprint>)
    ensures |r| == |ledger|
  {
    seq(|ledger|, i requires 0 <= i < |ledger| => ledger[i].fingerprint)
  }

  function OccurrencePrints(guide: seq<Occurrence>): (r: seq<Fingerprint>)
    ensures |r| == |guide|
  {
    seq(|guide|, i requires 0 <= i < |guide| => guide[i].fingerprint)
  }

  /** A fingerprint occurs once among distinct occurrences. */
  lemma TheOccurrence(guide: seq<Occurrence>, k: nat)
    requires DistinctOccurrences(guide) && k < |guide|
    ensures FirstOccurrence(guide, guide[k].fingerprint) == Some(guide[k])
  {
    var first := FirstOccurrence(guide, guide[k].fingerprint);
    assert guide[k] in guide;
    var j :| 0 <= j < |guide| && guide[j] == first.value;
  }

  /** The position of each entry's occurrence. */
  lemma {:induction false} PositionsOf(ledger: seq<Requirement>, guide: seq<Occurrence>) returns (to: seq<nat>)
    requires forall i :: MatchesAt(ledger, guide, i)
    ensures |to| == |ledger|
    ensures forall i :: 0 <= i < |to| ==>
      to[i] < |guide| && ledger[i].fingerprint == guide[to[i]].fingerprint && SameAnchor(ledger[i], guide[to[i]])
    decreases |ledger|
  {
    to := [];
    if ledger != [] {
      var n := |ledger| - 1;
      var front := ledger[..n];
      forall i ensures MatchesAt(front, guide, i) { assert MatchesAt(ledger, guide, i); }
      var before := PositionsOf(front, guide);
      assert MatchesAt(ledger, guide, n);
      var k: nat :| k < |guide| && guide[k] == FirstOccurrence(guide, ledger[n].fingerprint).value;
      to := before + [k];
    }
  }

  /** Same fingerprints on both sides, all distinct: the same number. */
  lemma SameSize(ledger: seq<Requirement>, guide: seq<Occurrence>)
    requires DistinctEntries(ledger) && DistinctOccurrences(guide)
    requires forall i :: MatchesAt(ledger, guide, i)
    requires forall j :: 0 <= j < |guide| ==> InLedger(ledger, guide[j].fingerprint)
    ensures |ledger| == |guide|
  {
    var a, b := EntryPrints(ledger), OccurrencePrints(guide);
    DistinctSize(a);
    DistinctSize(b);
    var left, right := set x | x in a, set x | x in b;
    forall x | x in left ensures x in right {
      var i :| 0 <= i < |a| && a[i] == x;
      assert MatchesAt(ledger, guide, i);
      var k :| 0 <= k < |guide| && guide[k] == FirstOccurrence(guide, ledger[i].fingerprint).value;
      assert b[k] == x;
    }
    forall x | x in right ensures x in left {
      var j :| 0 <= j < |b| && b[j] == x;
      var k: nat :| k < |ledger| && ledger[k].fingerprint == guide[j].fingerprint;
      assert a[k] == x;
    }
    assert left == right;
  }

  lemma SilentCorresponds(ledger: seq<Requirement>, guide: seq<Occurrence>) returns (to: seq<nat>)
    requires CensusFindings(ledger, guide) == []
    ensures Correspondence(to, ledger, guide) && DistinctEntries(ledger)
  {
    SilentWhen(ledger, guide);
    SameSize(ledger, guide);
    to := PositionsOf(ledger, guide);
    forall i, j | 0 <= i < j < |to| ensures to[i] != to[j] {
      assert ledger[i].fingerprint != ledger[j].fingerprint;
    }
  }

  lemma CorrespondsSilent(to: seq<nat>, ledger: seq<Requirement>, guide: seq<Occurrence>)
    requires Correspondence(to, ledger, guide) && DistinctEntries(ledger)
    ensures CensusFindings(ledger, guide) == []
  {
    NatsFit(to, |guide|);
    CorrespondenceOnto(to, ledger, guide);
    forall i ensures MatchesAt(ledger, guide, i) {
      if 0 <= i < |ledger| { TheOccurrence(guide, to[i]); }
    }
    SilentWhen(ledger, guide);
  }

  lemma CorrespondenceOnto(to: seq<nat>, ledger: seq<Requirement>, guide: seq<Occurrence>)
    requires Correspondence(to, ledger, guide) && DistinctEntries(ledger)
    requires forall j: nat :: j < |guide| ==> j in to
    ensures DistinctOccurrences(guide)
    ensures forall j :: 0 <= j < |guide| ==> InLedger(ledger, guide[j].fingerprint)
  {
    forall j, k | 0 <= j < k < |guide| ensures guide[j].fingerprint != guide[k].fingerprint {
      assert j in to;
      var a: nat :| a < |to| && to[a] == j;
      assert k in to;
      var b: nat :| b < |to| && to[b] == k;
      assert ledger[a].fingerprint != ledger[b].fingerprint;
    }
    forall j | 0 <= j < |guide| ensures InLedger(ledger, guide[j].fingerprint) {
      assert j in to;
      var a: nat :| a < |to| && to[a] == j;
      assert ledger[a].fingerprint == guide[j].fingerprint;
    }
  }

  /**
   The census reports no duplicated, removed, renumbered or added item exactly when ledger entries and
   guide occurrences are in one-to-one correspondence by fingerprint with equal anchors.
   */
  lemma CensusExact(ledger: seq<Requirement>, guide: seq<Occurrence>)
    ensures CensusFindings(ledger, guide) == []
       <==> DistinctEntries(ledger) && exists to :: Correspondence(to, ledger, guide)
  {
    if CensusFindings(ledger, guide) == [] {
      var to := SilentCorresponds(ledger, guide);
    } else if DistinctEntries(ledger) {
      if to :| Correspondence(to, ledger, guide) {
        CorrespondsSilent(to, ledger, guide);
        assert false;
      }
    }
  }

  /** A silent census has matched every entry. */
  lemma SilentMatchesAll(ledger: seq<Requirement>, guide: seq<Occurrence>)
    requires CensusFindings(ledger, guide) == []
    ensures Matched(ledger, guide) == |ledger| == |guide|
  {
    SilentWhen(ledger, guide);
    SameSize(ledger, guide);
    AllMatch(ledger, guide);
    EntriesAccountedFor(ledger, guide);
  }

  // --------------------------------------------------------- what each finding says

  /** The first occurrence of its fingerprint. */
  predicate FirstAt(guide: seq<Occurrence>, i: nat) {
    i < |guide| && forall j :: 0 <= j < i ==> guide[j].fingerprint != guide[i].fingerprint
  }

  predicate RemovedBy(ledger: seq<Requirement>, guide: seq<Occurrence>, k: nat, f: Finding) {
    && k < |ledger| && f == Removed(ledger[k].id)
    && forall i :: 0 <= i < |guide| ==> guide[i].fingerprint != ledger[k].fingerprint
  }

  predicate MovedBy(ledger: seq<Requirement>, guide: seq<Occurrence>, k: nat, i: nat, f: Finding) {
    && k < |ledger| && FirstAt(guide, i) && guide[i].fingerprint == ledger[k].fingerprint
    && (guide[i].line != ledger[k].line || guide[i].occurrence != ledger[k].occurrence)
    && f == Renumbered(ledger[k].id, guide[i].line, guide[i].occurrence)
  }

  predicate DuplicateBy(ledger: seq<Requirement>, j: nat, k: nat, f: Finding) {
    && j < k < |ledger| && ledger[j].fingerprint == ledger[k].fingerprint
    && (forall i :: 0 <= i < j ==> ledger[i].fingerprint != ledger[k].fingerprint)
    && f == DuplicatedEntry(ledger[k].id, ledger[j].id)
  }

  predicate RepeatBy(guide: seq<Occurrence>, k: nat, f: Finding) {
    k < |guide| && !FirstAt(guide, k) && f == RepeatedOccurrence(guide[k].source, guide[k].line)
  }

  predicate AddedBy(ledger: seq<Requirement>, guide: seq<Occurrence>, i: nat, f: Finding) {
    && FirstAt(guide, i) && f == Added(guide[i])
    && forall k :: 0 <= k < |ledger| ==> ledger[k].fingerprint != guide[i].fingerprint
  }

  /** The last entry of an id decides; without one the record is missing. */
  predicate DriftsBy(ledger: seq<Requirement>, ids: seq<string>, k: nat, f: Finding) {
    && k < |ids| && f == Narrative(ids[k])
    && forall i :: 0 <= i < |ledger| && ledger[i].id == ids[k] && ledger[i].classification == "narrative" ==>
         exists j :: i < j < |ledger| && ledger[j].id == ids[k]
  }

  lemma {:induction false} FirstOccurrenceAt(guide: seq<Occurrence>, f: Fingerprint) returns (i: nat)
    ensures FirstOccurrence(guide, f).Some? ==>
              FirstAt(guide, i) && guide[i].fingerprint == f && FirstOccurrence(guide, f).value == guide[i]
  {
    i := 0;
    if guide != [] && guide[0].fingerprint != f {
      var j := FirstOccurrenceAt(guide[1..], f);
      i := j + 1;
      assert forall k :: 1 <= k < |guide| ==> guide[k] == guide[1..][k - 1];
    }
  }

  lemma FirstIsOne(guide: seq<Occurrence>, i: nat, j: nat)
    requires FirstAt(guide, i) && FirstAt(guide, j) && guide[i].fingerprint == guide[j].fingerprint
    ensures i == j
  {
  }

  lemma MatchFindingExact(ledger: seq<Requirement>, guide: seq<Occurrence>, k: nat, f: Finding)
    requires k < |ledger|
    ensures f in MatchFinding(ledger[k], guide) <==>
            RemovedBy(ledger, guide, k, f) || exists i: nat :: MovedBy(ledger, guide, k, i, f)
  {
    var r := ledger[k];
    var at := FirstOccurrenceAt(guide, r.fingerprint);
    if FirstOccurrence(guide, r.fingerprint).Some? {
      assert guide[at].fingerprint == r.fingerprint;
      if i: nat :| MovedBy(ledger, guide, k, i, f) { FirstIsOne(guide, i, at); }
      if f in MatchFinding(r, guide) { assert MovedBy(ledger, guide, k, at, f); }
    } else {
      assert forall i :: 0 <= i < |guide| ==> guide[i] in guide;
    }
  }

  predicate FoundFor(ledger: seq<Requirement>, guide: seq<Occurrence>, k: nat, f: Finding) {
    k < |ledger| && f in MatchFinding(ledger[k], guide)
  }

  lemma MatchFindingsPush(ledger: seq<Requirement>, guide: seq<Occurrence>, f: Finding)
    requires ledger != []
    ensures var n := |ledger| - 1;
            f in MatchFindings(ledger, guide) <==>
            f in MatchFindings(ledger[..n], guide) || FoundFor(ledger, guide, n, f)
  {
  }

  lemma {:induction false} MatchFindingsAt(ledger: seq<Requirement>, guide: seq<Occurrence>, f: Finding)
    ensures f in MatchFindings(ledger, guide) <==> exists k: nat :: FoundFor(ledger, guide, k, f)
  {
    if ledger != [] {
      var n := |ledger| - 1;
      MatchFindingsAt(ledger[..n], guide, f);
      MatchFindingsPush(ledger, guide, f);
      if k: nat :| FoundFor(ledger, guide, k, f) {
        assert k < n ==> FoundFor(ledger[..n], guide, k, f);
      }
      if k: nat :| FoundFor(ledger[..n], guide, k, f) {
        assert FoundFor(ledger, guide, k, f);
      }
    }
  }

  /**
   An entry is reported removed exactly when no occurrence has its fingerprint, and renumbered, to the
   anchor of the first one that has, exactly when that anchor is another.
   */
  lemma MatchFindingsExact(ledger: seq<Requirement>, guide: seq<Occurrence>, f: Finding)
    ensures f in MatchFindings(ledger, guide) <==>
            || (exists k: nat :: RemovedBy(ledger, guide, k, f))
            || (exists k: nat, i: nat :: MovedBy(ledger, guide, k, i, f))
  {
    MatchFindingsAt(ledger, guide, f);
    if k: nat :| FoundFor(ledger, guide, k, f) {
      MatchFindingExact(ledger, guide, k, f);
    }
    if k: nat :| RemovedBy(ledger, guide, k, f) {
      MatchFindingExact(ledger, guide, k, f);
      assert FoundFor(ledger, guide, k, f);
    }
    if k: nat, i: nat :| MovedBy(ledger, guide, k, i, f) {
      MatchFindingExact(ledger, guide, k, f);
      assert FoundFor(ledger, guide, k, f);
    }
  }

  lemma {:induction false} FirstEntryAt(ledger: seq<Requirement>, f: Fingerprint) returns (i: nat)
    ensures FirstEntry(ledger, f).None? <==> forall k :: 0 <= k < |ledger| ==> ledger[k].fingerprint != f
    ensures FirstEntry(ledger, f).Some? ==>
              && i < |ledger| && ledger[i].fingerprint == f && FirstEntry(ledger, f).value == ledger[i].id
              && forall k :: 0 <= k < i ==> ledger[k].fingerprint != f
  {
    i := 0;
    if ledger != [] && ledger[0].fingerprint != f {
      var j := FirstEntryAt(ledger[1..], f);
      i := j + 1;
      assert forall k :: 1 <= k < |ledger| ==> ledger[k] == ledger[1..][k - 1];
    }
  }

  /** What the last entry adds to the duplicates. */
  lemma LastDuplicate(ledger: seq<Requirement>, f: Finding)
    requires ledger != []
    ensures var n := |ledger| - 1;
            var first := FirstEntry(ledger[..n], ledger[n].fingerprint);
            first.Some? && f == DuplicatedEntry(ledger[n].id, first.value) <==>
            exists j: nat :: DuplicateBy(ledger, j, n, f)
  {
    var n := |ledger| - 1;
    var at := FirstEntryAt(ledger[..n], ledger[n].fingerprint);
    var first := FirstEntry(ledger[..n], ledger[n].fingerprint);
    if first.Some? && f == DuplicatedEntry(ledger[n].id, first.value) {
      assert DuplicateBy(ledger, at, n, f);
    }
    if j: nat :| DuplicateBy(ledger, j, n, f) {
      assert ledger[..n][j].fingerprint == ledger[n].fingerprint;
      assert j == at;
    }
  }

  lemma DuplicateInFront(ledger: seq<Requirement>, n: nat, j: nat, k: nat, f: Finding)
    requires k < n <= |ledger|
    ensures DuplicateBy(ledger[..n], j, k, f) <==> DuplicateBy(ledger, j, k, f)
  {
  }

  /** An entry is reported duplicated exactly when an earlier one has its fingerprint, and with the first of them. */
  lemma {:induction false} DuplicatesExact(ledger: seq<Requirement>, f: Finding)
    ensures f in DuplicatedEntries(ledger) <==> exists j: nat, k: nat :: DuplicateBy(ledger, j, k, f)
  {
    if ledger != [] {
      var n := |ledger| - 1;
      DuplicatesExact(ledger[..n], f);
      LastDuplicate(ledger, f);
      if j: nat, k: nat :| DuplicateBy(ledger, j, k, f) {
        if k < n { DuplicateInFront(ledger, n, j, k, f); }
      }
      if j: nat, k: nat :| DuplicateBy(ledger[..n], j, k, f) {
        DuplicateInFront(ledger, n, j, k, f);
      }
    }
  }

  lemma FirstInFront(guide: seq<Occurrence>, k: nat)
    requires k < |guide|
    ensures FirstOccurrence(guide[..k], guide[k].fingerprint).None? <==> FirstAt(guide, k)
  {
    var o := FirstOccurrence(guide[..k], guide[k].fingerprint);
    if o.Some? {
      var j :| 0 <= j < k && guide[..k][j] == o.value;
      assert guide[j].fingerprint == guide[k].fingerprint;
    } else {
      assert forall j :: 0 <= j < k ==> guide[j] in guide[..k];
    }
  }

  lemma RepeatInFront(guide: seq<Occurrence>, n: nat, k: nat, f: Finding)
    requires k < n <= |guide|
    ensures RepeatBy(guide[..n], k, f) <==> RepeatBy(guide, k, f)
  {
  }

  /** An occurrence is reported repeated exactly when it is not the first of its fingerprint. */
  lemma {:induction false} RepeatsExact(guide: seq<Occurrence>, f: Finding)
    ensures f in RepeatedOccurrences(guide) <==> exists k: nat :: RepeatBy(guide, k, f)
  {
    if guide != [] {
      var n := |guide| - 1;
      RepeatsExact(guide[..n], f);
      FirstInFront(guide, n);
      if k: nat :| RepeatBy(guide, k, f) {
        if k < n { RepeatInFront(guide, n, k, f); }
      }
      if k: nat :| RepeatBy(guide[..n], k, f) {
        RepeatInFront(guide, n, k, f);
      }
      if FirstOccurrence(guide[..n], guide[n].fingerprint).Some? {
        assert f == RepeatedOccurrence(guide[n].source, guide[n].line) ==> RepeatBy(guide, n, f);
      }
    }
  }

  predicate FirstIs(guide: seq<Occurrence>, i: nat, o: Occurrence) { FirstAt(guide, i) && guide[i] == o }

  lemma FirstsPush(guide: seq<Occurrence>, o: Occurrence)
    requires guide != []
    ensures var n := |guide| - 1; o in Firsts(guide) <==> o in Firsts(guide[..n]) || FirstIs(guide, n, o)
  {
    FirstInFront(guide, |guide| - 1);
  }

  lemma FirstIsInFront(guide: seq<Occurrence>, n: nat, i: nat, o: Occurrence)
    requires i < n <= |guide|
    ensures FirstIs(guide[..n], i, o) <==> FirstIs(guide, i, o)
  {
  }

  lemma {:induction false} FirstsExact(guide: seq<Occurrence>, o: Occurrence)
    ensures o in Firsts(guide) <==> exists i: nat :: FirstIs(guide, i, o)
  {
    if guide != [] {
      var n := |guide| - 1;
      FirstsExact(guide[..n], o);
      FirstsPush(guide, o);
      if i: nat :| FirstIs(guide, i, o) {
        if i < n { FirstIsInFront(guide, n, i, o); }
      }
      if i: nat :| FirstIs(guide[..n], i, o) {
        FirstIsInFront(guide, n, i, o);
      }
    }
  }

  lemma {:induction false} UnmappedAre(firsts: seq<Occurrence>, ledger: seq<Requirement>, f: Finding)
    ensures f in Unmapped(firsts, ledger) <==>
            f.Added? && f.added in firsts && !InLedger(ledger, f.added.fingerprint)
  {
    if firsts != [] {
      var n := |firsts| - 1;
      UnmappedAre(firsts[..n], ledger, f);
      assert firsts == firsts[..n] + [firsts[n]];
    }
  }

  /** An occurrence is reported added exactly when it is the first of its fingerprint and no entry has that one. */
  lemma AddedExact(ledger: seq<Requirement>, guide: seq<Occurrence>, f: Finding)
    ensures f in Unmapped(Firsts(guide), ledger) <==> exists i: nat :: AddedBy(ledger, guide, i, f)
  {
    UnmappedAre(Firsts(guide), ledger, f);
    if f.Added? {
      FirstsExact(guide, f.added);
      if f.added in Firsts(guide) && !InLedger(ledger, f.added.fingerprint) {
        var i: nat :| FirstIs(guide, i, f.added);
        assert AddedBy(ledger, guide, i, f);
      }
    }
    if i: nat :| AddedBy(ledger, guide, i, f) {
      assert FirstIs(guide, i, f.added);
    }
  }

  lemma {:induction false} ByIdIsLast(ledger: seq<Requirement>, id: string)
    ensures NarrativeOk(ledger, id) <==>
            exists i :: 0 <= i < |ledger| && ledger[i].id == id && ledger[i].classification == "narrative"
                        && forall j :: i < j < |ledger| ==> ledger[j].id != id
  {
    if ledger != [] {
      var n := |ledger| - 1;
      ByIdIsLast(ledger[..n], id);
      if ledger[n].id != id {
        assert forall i :: 0 <= i < n ==> ledger[..n][i] == ledger[i];
        if i :| 0 <= i < |ledger| && ledger[i].id == id && ledger[i].classification == "narrative"
                && forall j :: i < j < |ledger| ==> ledger[j].id != id {
          assert ledger[..n][i].id == id && forall j :: i < j < n ==> ledger[..n][j].id != id;
        }
        if i :| 0 <= i < n && ledger[..n][i].id == id && ledger[..n][i].classification == "narrative"
                && forall j :: i < j < n ==> ledger[..n][j].id != id {
          assert ledger[i].id == id && forall j :: i < j < |ledger| ==> ledger[j].id != id;
        }
      }
    }
  }

  lemma LastDrifts(ledger: seq<Requirement>, ids: seq<string>, f: Finding)
    requires ids != []
    ensures var n := |ids| - 1;
            f == Narrative(ids[n]) && !NarrativeOk(ledger, ids[n]) <==> DriftsBy(ledger, ids, n, f)
  {
    ByIdIsLast(ledger, ids[|ids| - 1]);
  }

  lemma DriftPush(ledger: seq<Requirement>, ids: seq<string>, f: Finding)
    requires ids != []
    ensures var n := |ids| - 1;
            f in NarrativeDrift(ledger, ids) <==>
            f in NarrativeDrift(ledger, ids[..n]) || (f == Narrative(ids[n]) && !NarrativeOk(ledger, ids[n]))
  {
  }

  lemma DriftsInFront(ledger: seq<Requirement>, ids: seq<string>, n: nat, k: nat, f: Finding)
    requires k < n <= |ids|
    ensures DriftsBy(ledger, ids[..n], k, f) <==> DriftsBy(ledger, ids, k, f)
  {
  }

  /** A narrative id is reported exactly when its last entry is not classified as narrative, or it has none. */
  lemma {:induction false} DriftExact(ledger: seq<Requirement>, ids: seq<string>, f: Finding)
    ensures f in NarrativeDrift(ledger, ids) <==> exists k: nat :: DriftsBy(ledger, ids, k, f)
  {
    if ids != [] {
      var n := |ids| - 1;
      DriftExact(ledger, ids[..n], f);
      LastDrifts(ledger, ids, f);
      DriftPush(ledger, ids, f);
      if k: nat :| DriftsBy(ledger, ids, k, f) {
        if k < n { DriftsInFront(ledger, ids, n, k, f); }
      }
      if k: nat :| DriftsBy(ledger, ids[..n], k, f) {
        DriftsInFront(ledger, ids, n, k, f);
      }
    }
  }

  /** The census reports exactly what these six say, each of its own kind. */
  lemma ReportsExactly(ledger: seq<Requirement>, guide: seq<Occurrence>, ids: seq<string>, f: Finding)
    ensures f in CensusFindings(ledger, guide) + NarrativeDrift(ledger, ids) <==>
            || (exists j: nat, k: nat :: DuplicateBy(ledger, j, k, f))
            || (exists k: nat :: RepeatBy(guide, k, f))
            || (exists k: nat :: RemovedBy(ledger, guide, k, f))
            || (exists k: nat, i: nat :: MovedBy(ledger, guide, k, i, f))
            || (exists i: nat :: AddedBy(ledger, guide, i, f))
            || (exists k: nat :: DriftsBy(ledger, ids, k, f))
  {
    DuplicatesExact(ledger, f);
    RepeatsExact(guide, f);
    MatchFindingsExact(ledger, guide, f);
    AddedExact(ledger, guide, f);
    DriftExact(ledger, ids, f);
  }
}
