/**
 Blob maintenance: a read-only reconciliation scan over temporary files, object files and object
 records, and the delayed garbage collection that deletes files only.
 */
module BlobGc {
  import opened Common

  type Sha = string

  /** A staged temporary file; the last write is its age anchor. */
  datatype TempFile = TempFile(path: string, mtime: int)

  /** An object file under its digest name, with what a digest of its bytes now gives. */
  datatype FinalFile = FinalFile(sha: Sha, mtime: int, digest: Sha, size: nat)

  datatype BlobState = Staging | Finalized | Purged

  datatype BlobObject = BlobObject(id: nat, sha: Sha, size: nat, state: BlobState, path: string,
                                   finalizedAt: Option<int>)

  datatype Class = OrphanTemporary | UnreferencedFinal | MissingReferenced

  datatype Finding = Finding(
    kind: Class, id: Option<nat>, sha: Option<Sha>, path: Option<string>, anchor: Option<int>, filePresent: bool)

  datatype GcReport = GcReport(sweptTemps: nat, deletedFinals: nat, pending: nat, incidents: nat)

  /** The object records with the number of references to each. */
  datatype Records = Records(objects: seq<BlobObject>, references: map<nat, nat>)

  /** Microseconds. */
  const MAX_BACKUP_WINDOW: int := 24 * 60 * 60 * 1_000_000

  predicate SafetyDelayValid(delay: int) { delay > MAX_BACKUP_WINDOW }

  predicate Eligible(anchor: Option<int>, now: int, delay: int) {
    anchor.Some? && now - anchor.value >= delay
  }

  // ------------------------------------------------------------- classification

  /** The record of a digest; digests are unique among the records. */
  function FindObject(objects: seq<BlobObject>, sha: Sha): (r: Option<BlobObject>)
    ensures r.Some? ==> r.value in objects && r.value.sha == sha
    ensures r.None? ==> forall o :: o in objects ==> o.sha != sha
  {
    if objects == [] then None
    else if objects[|objects| - 1].sha == sha then Some(objects[|objects| - 1])
    else FindObject(objects[..|objects| - 1], sha)
  }

  function FindFinal(finals: seq<FinalFile>, sha: Sha): (r: Option<FinalFile>)
    ensures r.Some? ==> r.value in finals && r.value.sha == sha
    ensures r.None? ==> forall f :: f in finals ==> f.sha != sha
  {
    if finals == [] then None
    else if finals[|finals| - 1].sha == sha then Some(finals[|finals| - 1])
    else FindFinal(finals[..|finals| - 1], sha)
  }

  predicate UniqueShas(objects: seq<BlobObject>) {
    forall i, j :: 0 <= i < j < |objects| ==> objects[i].sha != objects[j].sha
  }

  predicate UniqueFiles(finals: seq<FinalFile>) {
    forall i, j :: 0 <= i < j < |finals| ==> finals[i].sha != finals[j].sha
  }

  predicate UniqueTemps(temps: seq<TempFile>) {
    forall i, j :: 0 <= i < j < |temps| ==> temps[i].path != temps[j].path
  }

  function References(records: Records, id: nat): nat {
    if id in records.references then records.references[id] else 0
  }

  /** verify_content finds the digest and size of the record. */
  predicate Intact(f: FinalFile, o: BlobObject) { f.digest == o.sha && f.size == o.size }

  function ClassifyTemp(t: TempFile): Finding {
    Finding(OrphanTemporary, None, None, Some(t.path), Some(t.mtime), true)
  }

  function ClassifyFinal(f: FinalFile, records: Records): seq<Finding> {
    var o := FindObject(records.objects, f.sha);
    if o.None? then [Finding(UnreferencedFinal, None, Some(f.sha), None, Some(f.mtime), true)]
    else if !o.value.state.Finalized? then
      [Finding(UnreferencedFinal, Some(o.value.id), Some(f.sha), Some(o.value.path), Some(f.mtime), true)]
    else if References(records, o.value.id) == 0 then
      [Finding(UnreferencedFinal, Some(o.value.id), Some(f.sha), Some(o.value.path),
               if o.value.finalizedAt.Some? then o.value.finalizedAt else Some(f.mtime), true)]
    else if Intact(f, o.value) then []
    else [Finding(MissingReferenced, Some(o.value.id), Some(o.value.sha), Some(o.value.path), o.value.finalizedAt,
                  true)]
  }

  function ClassifyRow(o: BlobObject, finals: seq<FinalFile>, records: Records): seq<Finding> {
    if !o.state.Finalized? || FindFinal(finals, o.sha).Some? then []
    else
      [Finding(if References(records, o.id) > 0 then MissingReferenced else UnreferencedFinal,
               Some(o.id), Some(o.sha), Some(o.path), o.finalizedAt, false)]
  }

  function TempFindings(temps: seq<TempFile>): (r: seq<Finding>)
    ensures |r| == |temps|
  {
    seq(|temps|, i requires 0 <= i < |temps| => ClassifyTemp(temps[i]))
  }

  function FinalFindings(finals: seq<FinalFile>, records: Records): seq<Finding> {
    if finals == [] then []
    else FinalFindings(finals[..|finals| - 1], records) + ClassifyFinal(finals[|finals| - 1], records)
  }

  function RowFindings(objects: seq<BlobObject>, finals: seq<FinalFile>, records: Records): seq<Finding> {
    if objects == [] then []
    else RowFindings(objects[..|objects| - 1], finals, records) + ClassifyRow(objects[|objects| - 1], finals, records)
  }

  /** findings_of. */
  function OfClass(findings: seq<Finding>, kind: Class): seq<Finding> {
    if findings == [] then []
    else OfClass(findings[..|findings| - 1], kind)
         + if findings[|findings| - 1].kind == kind then [findings[|findings| - 1]] else []
  }

  function Scan(temps: seq<TempFile>, finals: seq<FinalFile>, records: Records): seq<Finding> {
    TempFindings(temps) + FinalFindings(finals, records) + RowFindings(records.objects, finals, records)
  }

  // --------------------------------------------------------------- specification

  /** A file is protected by a finalized record that is referenced. */
  predicate Protected(sha: Sha, records: Records) {
    exists k: nat :: k < |records.objects| && Protects(records, records.objects[k], sha)
  }

  predicate Protects(records: Records, o: BlobObject, sha: Sha) {
    o.sha == sha && o.state.Finalized? && References(records, o.id) > 0
  }

  /** The age of an unprotected file counts from its finalization, or from its last write without one. */
  function Anchor(f: FinalFile, records: Records): int {
    var o := FindObject(records.objects, f.sha);
    if o.Some? && o.value.state.Finalized? && o.value.finalizedAt.Some? then o.value.finalizedAt.value else f.mtime
  }

  predicate DoomedTemp(t: TempFile, now: int, delay: int) { now - t.mtime >= delay }

  predicate DoomedFinal(f: FinalFile, records: Records, now: int, delay: int) {
    !Protected(f.sha, records) && now - Anchor(f, records) >= delay
  }

  function KeptTemps(temps: seq<TempFile>, now: int, delay: int): seq<TempFile> {
    if temps == [] then []
    else KeptTemps(temps[..|temps| - 1], now, delay)
         + if DoomedTemp(temps[|temps| - 1], now, delay) then [] else [temps[|temps| - 1]]
  }

  function KeptFinals(finals: seq<FinalFile>, records: Records, now: int, delay: int): seq<FinalFile> {
    if finals == [] then []
    else KeptFinals(finals[..|finals| - 1], records, now, delay)
         + if DoomedFinal(finals[|finals| - 1], records, now, delay) then [] else [finals[|finals| - 1]]
  }

  /** The files that reconciliation finds without protection. */
  function Loose(finals: seq<FinalFile>, records: Records): seq<FinalFile> {
    if finals == [] then []
    else Loose(finals[..|finals| - 1], records)
         + if Protected(finals[|finals| - 1].sha, records) then [] else [finals[|finals| - 1]]
  }

  lemma {:induction false} FindUnique(objects: seq<BlobObject>, k: nat)
    requires UniqueShas(objects) && k < |objects|
    ensures FindObject(objects, objects[k].sha) == Some(objects[k])
  {
    if k < |objects| - 1 {
      FindUnique(objects[..|objects| - 1], k);
    }
  }

  /** With unique digests, the lookup decides protection. */
  lemma ProtectedByFind(sha: Sha, records: Records)
    requires UniqueShas(records.objects)
    ensures var o := FindObject(records.objects, sha);
            Protected(sha, records) <==> o.Some? && o.value.state.Finalized? && References(records, o.value.id) > 0
  {
    var o := FindObject(records.objects, sha);
    if k: nat :| k < |records.objects| && Protects(records, records.objects[k], sha) {
      FindUnique(records.objects, k);
    }
    if o.Some? && o.value.state.Finalized? && References(records, o.value.id) > 0 {
      var k :| 0 <= k < |records.objects| && records.objects[k] == o.value;
      assert Protects(records, records.objects[k], sha);
    }
  }

  /** A file is a sweepable finding exactly when it is unprotected, with its anchor. */
  lemma ClassifiedLoose(f: FinalFile, records: Records)
    requires UniqueShas(records.objects)
    ensures var here := OfClass(ClassifyFinal(f, records), UnreferencedFinal);
            if Protected(f.sha, records) then here == []
            else
              && |here| == 1 && here[0].sha == Some(f.sha) && here[0].anchor == Some(Anchor(f, records))
              && here[0].filePresent
  {
    ProtectedByFind(f.sha, records);
    var all := ClassifyFinal(f, records);
    if all != [] {
      assert all[..0] == [];
      assert OfClass(all, UnreferencedFinal) == OfClass(all[..0], UnreferencedFinal)
             + if all[0].kind == UnreferencedFinal then [all[0]] else [];
    }
  }

  lemma {:induction false} OfClassAppend(a: seq<Finding>, b: seq<Finding>, kind: Class)
    ensures OfClass(a + b, kind) == OfClass(a, kind) + OfClass(b, kind)
    decreases |b|
  {
    if b == [] {
      assert a + b == a;
    } else {
      var n := |b| - 1;
      assert (a + b)[..|a| + n] == a + b[..n];
      OfClassAppend(a, b[..n], kind);
    }
  }

  // ---------------------------------------------------------------------- store

  function RemoveTemp(temps: seq<TempFile>, path: string): seq<TempFile> {
    if temps == [] then []
    else RemoveTemp(temps[..|temps| - 1], path)
         + if temps[|temps| - 1].path == path then [] else [temps[|temps| - 1]]
  }

  /** The files whose name is not in `gone`. */
  function Without(finals: seq<FinalFile>, gone: set<Sha>): seq<FinalFile> {
    if finals == [] then []
    else Without(finals[..|finals| - 1], gone)
         + if finals[|finals| - 1].sha in gone then [] else [finals[|finals| - 1]]
  }

  lemma {:induction false} WithoutTwice(finals: seq<FinalFile>, gone: set<Sha>, sha: Sha)
    ensures Without(Without(finals, gone), {sha}) == Without(finals, gone + {sha})
  {
    if finals != [] {
      var front, last := finals[..|finals| - 1], finals[|finals| - 1];
      WithoutTwice(front, gone, sha);
      if last.sha !in gone {
        assert (Without(front, gone) + [last])[..|Without(front, gone)|] == Without(front, gone);
      } else {
        assert Without(front, gone) + [] == Without(front, gone);
      }
    }
  }

  lemma {:induction false} WithoutNone(finals: seq<FinalFile>)
    ensures Without(finals, {}) == finals
  {
    if finals != [] {
      WithoutNone(finals[..|finals| - 1]);
    }
  }

  lemma {:induction false} RemoveAppend(a: seq<TempFile>, b: seq<TempFile>, path: string)
    ensures RemoveTemp(a + b, path) == RemoveTemp(a, path) + RemoveTemp(b, path)
    decreases |b|
  {
    if b == [] {
      assert a + b == a;
    } else {
      var n := |b| - 1;
      assert (a + b)[..|a| + n] == a + b[..n];
      RemoveAppend(a, b[..n], path);
    }
  }

  lemma {:induction false} RemoveAbsent(temps: seq<TempFile>, path: string)
    requires forall t :: t in temps ==> t.path != path
    ensures RemoveTemp(temps, path) == temps
  {
    if temps != [] {
      var n := |temps| - 1;
      assert temps == temps[..n] + [temps[n]];
      RemoveAbsent(temps[..n], path);
    }
  }

  /** The file store: its sequences are in listing order. */
  class BlobStore {
    var temporaries: seq<TempFile>
    var finals: seq<FinalFile>

    method DeleteTemporary(path: string)
      modifies this`temporaries
      ensures temporaries == RemoveTemp(old(temporaries), path)
    {
      temporaries := RemoveTemp(temporaries, path);
    }

    method DeleteFinal(sha: Sha)
      modifies this`finals
      ensures finals == Without(old(finals), {sha})
    {
      finals := Without(finals, {sha});
    }
  }

  /** ReconcileBlobs: the scan reads only. */
  method Reconcile(store: BlobStore, records: Records) returns (findings: seq<Finding>)
    ensures findings == Scan(store.temporaries, store.finals, records)
  {
    var temps, finals := store.temporaries, store.finals;
    findings := [];
    for i := 0 to |temps|
      invariant findings == TempFindings(temps)[..i]
    {
      findings := findings + [ClassifyTemp(temps[i])];
    }
    ghost var first := TempFindings(temps);
    assert findings == first;
    for i := 0 to |finals|
      invariant findings == first + FinalFindings(finals[..i], records)
    {
      assert finals[..i + 1][..i] == finals[..i];
      Associate(first, FinalFindings(finals[..i], records), ClassifyFinal(finals[i], records));
      findings := findings + ClassifyFinal(finals[i], records);
    }
    assert finals[..|finals|] == finals;
    ghost var second := first + FinalFindings(finals, records);
    for i := 0 to |records.objects|
      invariant findings == second + RowFindings(records.objects[..i], finals, records)
    {
      assert records.objects[..i + 1][..i] == records.objects[..i];
      Associate(second, RowFindings(records.objects[..i], finals, records),
                ClassifyRow(records.objects[i], finals, records));
      findings := findings + ClassifyRow(records.objects[i], finals, records);
    }
    assert records.objects[..|records.objects|] == records.objects;
  }

  // ---------------------------------------------------------------- counting

  predicate Sweeps(f: Finding, now: int, delay: int) { f.filePresent && Eligible(f.anchor, now, delay) }

  function CountSwept(findings: seq<Finding>, now: int, delay: int): nat {
    if findings == [] then 0
    else
      CountSwept(findings[..|findings| - 1], now, delay)
      + if Sweeps(findings[|findings| - 1], now, delay) then 1 else 0
  }

  function CountPresent(findings: seq<Finding>): nat {
    if findings == [] then 0
    else CountPresent(findings[..|findings| - 1]) + if findings[|findings| - 1].filePresent then 1 else 0
  }

  /** The digests of the findings that are swept. */
  function Gone(findings: seq<Finding>, now: int, delay: int): set<Sha> {
    if findings == [] then {}
    else
      var last := findings[|findings| - 1];
      Gone(findings[..|findings| - 1], now, delay)
      + if Sweeps(last, now, delay) && last.sha.Some? then {last.sha.value} else {}
  }

  lemma {:induction false} CountAppend(a: seq<Finding>, b: seq<Finding>, now: int, delay: int)
    ensures CountSwept(a + b, now, delay) == CountSwept(a, now, delay) + CountSwept(b, now, delay)
    ensures CountPresent(a + b) == CountPresent(a) + CountPresent(b)
    ensures Gone(a + b, now, delay) == Gone(a, now, delay) + Gone(b, now, delay)
    decreases |b|
  {
    if b == [] {
      assert a + b == a;
    } else {
      var n := |b| - 1;
      assert (a + b)[..|a| + n] == a + b[..n];
      CountAppend(a, b[..n], now, delay);
    }
  }

  /** Findings without a file count for nothing. */
  lemma {:induction false} RowsCountNothing(objects: seq<BlobObject>, finals: seq<FinalFile>, records: Records,
                                            kind: Class, now: int, delay: int)
    ensures var rows := OfClass(RowFindings(objects, finals, records), kind);
            CountSwept(rows, now, delay) == 0 && CountPresent(rows) == 0 && Gone(rows, now, delay) == {}
  {
    if objects != [] {
      var n := |objects| - 1;
      RowsCountNothing(objects[..n], finals, records, kind, now, delay);
      var here := ClassifyRow(objects[n], finals, records);
      OfClassAppend(RowFindings(objects[..n], finals, records), here, kind);
      CountAppend(OfClass(RowFindings(objects[..n], finals, records), kind), OfClass(here, kind), now, delay);
      OneRow(objects[n], finals, records, kind, now, delay);
    }
  }

  lemma OneRow(o: BlobObject, finals: seq<FinalFile>, records: Records, kind: Class, now: int, delay: int)
    ensures var here := OfClass(ClassifyRow(o, finals, records), kind);
            CountSwept(here, now, delay) == 0 && CountPresent(here) == 0 && Gone(here, now, delay) == {}
  {
    var all := ClassifyRow(o, finals, records);
    if all != [] {
      assert all[..0] == [];
      var here := OfClass(all, kind);
      assert here == OfClass(all[..0], kind) + if all[0].kind == kind then [all[0]] else [];
      if here != [] { assert here[..0] == []; }
    }
  }

  function DoomedShas(finals: seq<FinalFile>, records: Records, now: int, delay: int): set<Sha> {
    if finals == [] then {}
    else
      DoomedShas(finals[..|finals| - 1], records, now, delay)
      + if DoomedFinal(finals[|finals| - 1], records, now, delay) then {finals[|finals| - 1].sha} else {}
  }

  /** The sweepable findings on disk are the unprotected files, the swept ones those old enough. */
  lemma {:induction false} FinalsCount(finals: seq<FinalFile>, records: Records, now: int, delay: int)
    requires UniqueShas(records.objects)
    ensures var here := OfClass(FinalFindings(finals, records), UnreferencedFinal);
            && CountSwept(here, now, delay) == |finals| - |KeptFinals(finals, records, now, delay)|
            && CountPresent(here) == |Loose(finals, records)|
            && Gone(here, now, delay) == DoomedShas(finals, records, now, delay)
  {
    if finals != [] {
      var n := |finals| - 1;
      FinalsCount(finals[..n], records, now, delay);
      var before, here := FinalFindings(finals[..n], records), ClassifyFinal(finals[n], records);
      OfClassAppend(before, here, UnreferencedFinal);
      CountAppend(OfClass(before, UnreferencedFinal), OfClass(here, UnreferencedFinal), now, delay);
      OneFinal(finals[n], records, now, delay);
    }
  }

  /** With unique names, those are the names of exactly the doomed files. */
  lemma {:induction false} DoomedShasAre(finals: seq<FinalFile>, records: Records, now: int, delay: int)
    requires UniqueFiles(finals)
    ensures forall k :: 0 <= k < |finals| ==>
      (finals[k].sha in DoomedShas(finals, records, now, delay) <==> DoomedFinal(finals[k], records, now, delay))
    ensures forall sha :: sha in DoomedShas(finals, records, now, delay) ==>
            exists k :: 0 <= k < |finals| && finals[k].sha == sha
  {
    if finals != [] {
      DoomedShasAre(finals[..|finals| - 1], records, now, delay);
    }
  }

  lemma OneFinal(f: FinalFile, records: Records, now: int, delay: int)
    requires UniqueShas(records.objects)
    ensures var here := OfClass(ClassifyFinal(f, records), UnreferencedFinal);
            && CountSwept(here, now, delay) == (if DoomedFinal(f, records, now, delay) then 1 else 0)
            && CountPresent(here) == (if Protected(f.sha, records) then 0 else 1)
            && Gone(here, now, delay) == if DoomedFinal(f, records, now, delay) then {f.sha} else {}
  {
    ClassifiedLoose(f, records);
    var here := OfClass(ClassifyFinal(f, records), UnreferencedFinal);
    if here != [] { assert here[..0] == []; }
  }

  lemma {:induction false} WithoutGone(finals: seq<FinalFile>, records: Records, now: int, delay: int, gone: set<Sha>)
    requires forall k :: 0 <= k < |finals| ==> (finals[k].sha in gone <==> DoomedFinal(finals[k], records, now, delay))
    ensures Without(finals, gone) == KeptFinals(finals, records, now, delay)
  {
    if finals != [] {
      WithoutGone(finals[..|finals| - 1], records, now, delay, gone);
    }
  }

  lemma {:induction false} TempsAreTemps(temps: seq<TempFile>)
    ensures OfClass(TempFindings(temps), OrphanTemporary) == TempFindings(temps)
    ensures OfClass(TempFindings(temps), UnreferencedFinal) == []
    ensures OfClass(TempFindings(temps), MissingReferenced) == []
  {
    if temps != [] {
      var n := |temps| - 1;
      TempsAreTemps(temps[..n]);
      assert TempFindings(temps)[..n] == TempFindings(temps[..n]);
    }
  }

  lemma {:induction false} OthersAreNotTemps(findings: seq<Finding>)
    requires forall f :: f in findings ==> !f.kind.OrphanTemporary?
    ensures OfClass(findings, OrphanTemporary) == []
  {
    if findings != [] {
      assert findings[|findings| - 1] in findings;
      OthersAreNotTemps(findings[..|findings| - 1]);
    }
  }

  lemma {:induction false} FinalKinds(finals: seq<FinalFile>, records: Records)
    ensures forall f :: f in FinalFindings(finals, records) ==> !f.kind.OrphanTemporary?
  {
    if finals != [] { FinalKinds(finals[..|finals| - 1], records); }
  }

  lemma {:induction false} RowKinds(objects: seq<BlobObject>, finals: seq<FinalFile>, records: Records)
    ensures forall f :: f in RowFindings(objects, finals, records) ==> !f.kind.OrphanTemporary?
  {
    if objects != [] { RowKinds(objects[..|objects| - 1], finals, records); }
  }

  lemma {:induction false} ScanTemps(temps: seq<TempFile>, finals: seq<FinalFile>, records: Records)
    ensures OfClass(Scan(temps, finals, records), OrphanTemporary) == TempFindings(temps)
  {
    var a, b, c := TempFindings(temps), FinalFindings(finals, records), RowFindings(records.objects, finals, records);
    TempsAreTemps(temps);
    FinalKinds(finals, records);
    RowKinds(records.objects, finals, records);
    OthersAreNotTemps(b);
    OthersAreNotTemps(c);
    OfClassAppend(a + b, c, OrphanTemporary);
    OfClassAppend(a, b, OrphanTemporary);
  }

  /** The sweepable findings of one scan: what they count, and which files they doom. */
  lemma {:induction false} ScanSweepable(temps: seq<TempFile>, finals: seq<FinalFile>, records: Records, now: int,
                                         delay: int)
    requires UniqueShas(records.objects)
    ensures var sweepable := OfClass(Scan(temps, finals, records), UnreferencedFinal);
            && CountSwept(sweepable, now, delay) == |finals| - |KeptFinals(finals, records, now, delay)|
            && CountPresent(sweepable) == |Loose(finals, records)|
            && Gone(sweepable, now, delay) == DoomedShas(finals, records, now, delay)
  {
    var b, c := FinalFindings(finals, records), RowFindings(records.objects, finals, records);
    SweepableParts(temps, finals, records);
    FinalsCount(finals, records, now, delay);
    RowsCountNothing(records.objects, finals, records, UnreferencedFinal, now, delay);
    CountAppend(OfClass(b, UnreferencedFinal), OfClass(c, UnreferencedFinal), now, delay);
  }

  lemma SweepableParts(temps: seq<TempFile>, finals: seq<FinalFile>, records: Records)
    ensures OfClass(Scan(temps, finals, records), UnreferencedFinal)
         == OfClass(FinalFindings(finals, records), UnreferencedFinal)
            + OfClass(RowFindings(records.objects, finals, records), UnreferencedFinal)
  {
    var a, b, c := TempFindings(temps), FinalFindings(finals, records), RowFindings(records.objects, finals, records);
    TempsAreTemps(temps);
    OfClassAppend(a + b, c, UnreferencedFinal);
    OfClassAppend(a, b, UnreferencedFinal);
    assert [] + OfClass(b, UnreferencedFinal) == OfClass(b, UnreferencedFinal);
  }

  // ---------------------------------------------------------------- collection

  class CollectBlobGarbage {
    const store: BlobStore
    const delay: int

    constructor (store: BlobStore, delay: int)
      requires SafetyDelayValid(delay)
      ensures this.store == store && this.delay == delay
    {
      this.store := store;
      this.delay := delay;
    }

    /** The loop over the temporaries. */
    method SweepTemps(findings: seq<Finding>, now: int) returns (swept: nat, pending: nat)
      requires UniqueTemps(store.temporaries) && |findings| == |store.temporaries|
      requires forall i :: 0 <= i < |findings| ==> findings[i] == ClassifyTemp(store.temporaries[i])
      modifies store`temporaries
      ensures store.temporaries == KeptTemps(old(store.temporaries), now, delay)
      ensures swept == |old(store.temporaries)| - |store.temporaries| && swept + pending == |old(store.temporaries)|
    {
      ghost var temps := store.temporaries;
      swept, pending := 0, 0;
      SweptNone(temps, now, delay);
      for i := 0 to |findings|
        invariant SweptTo(temps, store.temporaries, i, now, delay, pending) && swept + pending == i
      {
        assert findings[i] == ClassifyTemp(temps[i]);
        if !Eligible(findings[i].anchor, now, delay) {
          KeepOne(temps, store.temporaries, i, now, delay, pending);
          pending := pending + 1;
          continue;
        }
        RemoveOne(temps, store.temporaries, i, now, delay, pending);
        store.DeleteTemporary(findings[i].path.value);
        swept := swept + 1;
      }
      SweptAll(temps, store.temporaries, now, delay, pending);
    }

    /** The loop over the unreferenced finals. */
    method DeleteFinals(findings: seq<Finding>, now: int) returns (deleted: nat, pending: nat)
      requires forall f :: f in findings && f.filePresent ==> f.sha.Some?
      modifies store`finals
      ensures store.finals == Without(old(store.finals), Gone(findings, now, delay))
      ensures deleted == CountSwept(findings, now, delay) && deleted + pending == CountPresent(findings)
    {
      ghost var finals := store.finals;
      deleted, pending := 0, 0;
      WithoutNone(finals);
      for i := 0 to |findings|
        invariant store.finals == Without(finals, Gone(findings[..i], now, delay))
        invariant deleted == CountSwept(findings[..i], now, delay) && deleted + pending == CountPresent(findings[..i])
      {
        assert findings[..i + 1][..i] == findings[..i];
        var finding := findings[i];
        assert finding in findings;
        ghost var gone := Gone(findings[..i], now, delay);
        assert Gone(findings[..i + 1], now, delay)
            == gone + if Sweeps(finding, now, delay) then {finding.sha.value} else {};
        assert gone + {} == gone;
        if !finding.filePresent {
          continue;
        }
        if Eligible(finding.anchor, now, delay) {
          WithoutTwice(finals, gone, finding.sha.value);
          store.DeleteFinal(finding.sha.value);
          deleted := deleted + 1;
        } else {
          pending := pending + 1;
        }
      }
      assert findings[..|findings|] == findings;
    }

    /** One pass. */
    method Collect(records: Records, now: int) returns (report: GcReport)
      requires UniqueShas(records.objects) && UniqueFiles(store.finals) && UniqueTemps(store.temporaries)
      modifies store
      ensures store.temporaries == KeptTemps(old(store.temporaries), now, delay)
      ensures store.finals == KeptFinals(old(store.finals), records, now, delay)
      ensures report.sweptTemps == |old(store.temporaries)| - |store.temporaries|
      ensures report.deletedFinals == |old(store.finals)| - |store.finals|
      ensures report.sweptTemps + report.deletedFinals + report.pending
           == |old(store.temporaries)| + |Loose(old(store.finals), records)|
      ensures report.incidents == |OfClass(Scan(old(store.temporaries), old(store.finals), records), MissingReferenced)|
    {
      ghost var temps, finals := store.temporaries, store.finals;
      var findings := Reconcile(store, records);
      ScanTemps(temps, finals, records);
      ScanSweepable(temps, finals, records, now, delay);
      var swept, youngTemps := SweepTemps(OfClass(findings, OrphanTemporary), now);
      var sweepable := OfClass(findings, UnreferencedFinal);
      OfClassNamed(temps, finals, records);
      var deleted, youngFinals := DeleteFinals(sweepable, now);
      DoomedShasAre(finals, records, now, delay);
      WithoutGone(finals, records, now, delay, DoomedShas(finals, records, now, delay));
      report := GcReport(swept, deleted, youngTemps + youngFinals, |OfClass(findings, MissingReferenced)|);
    }
  }

  /** The constructor refuses a delay that does not outlive a backup window. */
  method WireCollector(store: BlobStore, delay: int) returns (r: Option<CollectBlobGarbage>)
    ensures r.Some? <==> delay > 86_400_000_000
    ensures r.Some? ==> r.value.store == store && r.value.delay == delay
  {
    if !SafetyDelayValid(delay) {
      return None;
    }
    var gc := new CollectBlobGarbage(store, delay);
    return Some(gc);
  }

  /** The first `i` temporaries have been gone through: `count` of them are kept. */
  ghost predicate SweptTo(temps: seq<TempFile>, current: seq<TempFile>, i: nat, now: int, delay: int, count: nat) {
    && i <= |temps|
    && current == KeptTemps(temps[..i], now, delay) + temps[i..]
    && count == |KeptTemps(temps[..i], now, delay)|
  }

  lemma SweptNone(temps: seq<TempFile>, now: int, delay: int)
    ensures SweptTo(temps, temps, 0, now, delay, 0)
  {
  }

  lemma SweptAll(temps: seq<TempFile>, current: seq<TempFile>, now: int, delay: int, count: nat)
    requires SweptTo(temps, current, |temps|, now, delay, count)
    ensures current == KeptTemps(temps, now, delay) && count == |current|
  {
    assert temps[..|temps|] == temps;
  }

  lemma KeepOne(temps: seq<TempFile>, current: seq<TempFile>, i: nat, now: int, delay: int, count: nat)
    requires SweptTo(temps, current, i, now, delay, count) && i < |temps| && !DoomedTemp(temps[i], now, delay)
    ensures SweptTo(temps, current, i + 1, now, delay, count + 1)
  {
    assert temps[..i + 1][..i] == temps[..i];
    assert temps[i..] == [temps[i]] + temps[i + 1..];
    Associate(KeptTemps(temps[..i], now, delay), [temps[i]], temps[i + 1..]);
  }

  lemma RemoveOne(temps: seq<TempFile>, current: seq<TempFile>, i: nat, now: int, delay: int, count: nat)
    requires SweptTo(temps, current, i, now, delay, count) && i < |temps| && DoomedTemp(temps[i], now, delay)
    requires UniqueTemps(temps)
    ensures SweptTo(temps, RemoveTemp(current, temps[i].path), i + 1, now, delay, count)
  {
    var kept := KeptTemps(temps[..i], now, delay);
    KeptTempsAre(temps[..i], now, delay);
    assert temps[..i + 1][..i] == temps[..i];
    assert kept + [] == kept;
    assert temps[i..] == [temps[i]] + temps[i + 1..];
    RemoveMiddle(kept, temps[i], temps[i + 1..]);
  }

  lemma RemoveMiddle(kept: seq<TempFile>, t: TempFile, rest: seq<TempFile>)
    requires forall k :: k in kept ==> k.path != t.path
    requires forall k :: k in rest ==> k.path != t.path
    ensures RemoveTemp(kept + ([t] + rest), t.path) == kept + rest
  {
    RemoveAbsent(kept, t.path);
    RemoveAbsent(rest, t.path);
    RemoveAppend(kept, [t] + rest, t.path);
    RemoveAppend([t], rest, t.path);
    assert [t][..0] == [];
    assert [] + rest == rest;
  }

  lemma {:induction false} KeptTempsAre(temps: seq<TempFile>, now: int, delay: int)
    ensures forall t :: t in KeptTemps(temps, now, delay) <==> t in temps && !DoomedTemp(t, now, delay)
  {
    if temps != [] {
      KeptTempsAre(temps[..|temps| - 1], now, delay);
      assert temps == temps[..|temps| - 1] + [temps[|temps| - 1]];
    }
  }

  lemma {:induction false} KeptFinalsAre(finals: seq<FinalFile>, records: Records, now: int, delay: int)
    ensures forall f :: f in KeptFinals(finals, records, now, delay) <==>
            f in finals && !DoomedFinal(f, records, now, delay)
  {
    if finals != [] {
      KeptFinalsAre(finals[..|finals| - 1], records, now, delay);
      assert finals == finals[..|finals| - 1] + [finals[|finals| - 1]];
    }
  }

  lemma {:induction false} ClassMembers(findings: seq<Finding>, kind: Class)
    ensures forall f :: f in OfClass(findings, kind) ==> f in findings
  {
    if findings != [] { ClassMembers(findings[..|findings| - 1], kind); }
  }

  lemma {:induction false} FinalNamed(finals: seq<FinalFile>, records: Records)
    ensures forall f :: f in FinalFindings(finals, records) ==> f.sha.Some?
  {
    if finals != [] { FinalNamed(finals[..|finals| - 1], records); }
  }

  lemma {:induction false} RowNamed(objects: seq<BlobObject>, finals: seq<FinalFile>, records: Records)
    ensures forall f :: f in RowFindings(objects, finals, records) ==> f.sha.Some?
  {
    if objects != [] { RowNamed(objects[..|objects| - 1], finals, records); }
  }

  lemma OfClassNamed(temps: seq<TempFile>, finals: seq<FinalFile>, records: Records)
    ensures forall f :: f in OfClass(Scan(temps, finals, records), UnreferencedFinal) ==> f.sha.Some?
  {
    var b, c := FinalFindings(finals, records), RowFindings(records.objects, finals, records);
    SweepableParts(temps, finals, records);
    ClassMembers(b, UnreferencedFinal);
    ClassMembers(c, UnreferencedFinal);
    FinalNamed(finals, records);
    RowNamed(records.objects, finals, records);
  }

  // ----------------------------------------------------------------------- laws

  /**
   One pass removes exactly the unprotected files that are old enough: a file whose finalized record
   is referenced survives, and so does everything inside the backup window.
   */
  lemma CollectExactly(finals: seq<FinalFile>, records: Records, now: int, delay: int, f: FinalFile)
    requires f in finals
    ensures f !in KeptFinals(finals, records, now, delay) <==>
            !Protected(f.sha, records) && now - Anchor(f, records) >= delay
    ensures Protected(f.sha, records) ==> f in KeptFinals(finals, records, now, delay)
    ensures SafetyDelayValid(delay) && now - Anchor(f, records) <= MAX_BACKUP_WINDOW ==>
              f in KeptFinals(finals, records, now, delay)
  {
    KeptFinalsAre(finals, records, now, delay);
  }

  /** One pass removes exactly the temporaries that are old enough, and none inside the backup window. */
  lemma SweepExactly(temps: seq<TempFile>, now: int, delay: int, t: TempFile)
    requires t in temps
    ensures t !in KeptTemps(temps, now, delay) <==> now - t.mtime >= delay
    ensures SafetyDelayValid(delay) && now - t.mtime <= MAX_BACKUP_WINDOW ==> t in KeptTemps(temps, now, delay)
  {
    KeptTempsAre(temps, now, delay);
  }

  lemma {:induction false} DeleteTwice(finals: seq<FinalFile>, records: Records, first: int, second: int, delay: int)
    requires first <= second
    ensures KeptFinals(KeptFinals(finals, records, first, delay), records, second, delay) ==
            KeptFinals(finals, records, second, delay)
  {
    if finals != [] {
      var front, last := finals[..|finals| - 1], finals[|finals| - 1];
      DeleteTwice(front, records, first, second, delay);
      var kept := KeptFinals(front, records, first, delay);
      assert (kept + [last])[..|kept|] == kept && kept + [] == kept;
    }
  }

  lemma {:induction false} SweepTwice(temps: seq<TempFile>, first: int, second: int, delay: int)
    requires first <= second
    ensures KeptTemps(KeptTemps(temps, first, delay), second, delay) == KeptTemps(temps, second, delay)
  {
    if temps != [] {
      var front, last := temps[..|temps| - 1], temps[|temps| - 1];
      SweepTwice(front, first, second, delay);
      var kept := KeptTemps(front, first, delay);
      assert (kept + [last])[..|kept|] == kept && kept + [] == kept;
    }
  }

  /** A pass after an earlier one removes what it would have removed alone; at the same instant, nothing more. */
  lemma {:induction false} CollectTwice(temps: seq<TempFile>, finals: seq<FinalFile>, records: Records, first: int,
                                        second: int, delay: int)
    requires first <= second
    ensures KeptFinals(KeptFinals(finals, records, first, delay), records, second, delay) ==
            KeptFinals(finals, records, second, delay)
    ensures KeptTemps(KeptTemps(temps, first, delay), second, delay) == KeptTemps(temps, second, delay)
  {
    DeleteTwice(finals, records, first, second, delay);
    SweepTwice(temps, first, second, delay);
  }

  /**
   The incidents of a scan are the referenced finalized records whose file is missing or damaged;
   no pass removes the file of one, and a pass leaves the incidents as they were.
   */
  ghost predicate Incident(o: BlobObject, finals: seq<FinalFile>, records: Records) {
    && o in records.objects && o.state.Finalized? && References(records, o.id) > 0
    && (forall f :: f in finals && f.sha == o.sha ==> !Intact(f, o))
  }

  lemma IncidentsStay(o: BlobObject, finals: seq<FinalFile>, records: Records, now: int, delay: int)
    ensures Incident(o, KeptFinals(finals, records, now, delay), records) <==> Incident(o, finals, records)
  {
    KeptFinalsAre(finals, records, now, delay);
    if o in records.objects && o.state.Finalized? && References(records, o.id) > 0 {
      var k :| 0 <= k < |records.objects| && records.objects[k] == o;
      assert Protects(records, records.objects[k], o.sha);
    }
  }

  lemma {:induction false} ClassMembersAre(findings: seq<Finding>, kind: Class)
    ensures forall f :: f in OfClass(findings, kind) <==> f in findings && f.kind == kind
  {
    if findings != [] {
      var n := |findings| - 1;
      ClassMembersAre(findings[..n], kind);
      assert findings == findings[..n] + [findings[n]];
    }
  }

  lemma {:induction false} FinalMembers(finals: seq<FinalFile>, records: Records, f: Finding)
    ensures f in FinalFindings(finals, records) <==>
            exists k: nat :: k < |finals| && f in ClassifyFinal(finals[k], records)
  {
    if finals != [] {
      var n := |finals| - 1;
      FinalMembers(finals[..n], records, f);
      if k: nat :| k < |finals| && f in ClassifyFinal(finals[k], records) {
        if k < n { assert f in ClassifyFinal(finals[..n][k], records); }
      }
    }
  }

  lemma {:induction false} RowMembers(objects: seq<BlobObject>, finals: seq<FinalFile>, records: Records, f: Finding)
    ensures f in RowFindings(objects, finals, records) <==>
            exists k: nat :: k < |objects| && f in ClassifyRow(objects[k], finals, records)
  {
    if objects != [] {
      var n := |objects| - 1;
      RowMembers(objects[..n], finals, records, f);
      if k: nat :| k < |objects| && f in ClassifyRow(objects[k], finals, records) {
        if k < n { assert f in ClassifyRow(objects[..n][k], finals, records); }
      }
    }
  }

  /** The finding of an incident: with or without a damaged file. */
  ghost predicate Reports(findings: seq<Finding>, o: BlobObject) {
    exists filePresent: bool :: MissingFinding(o, filePresent) in findings
  }

  function MissingFinding(o: BlobObject, filePresent: bool): Finding {
    Finding(MissingReferenced, Some(o.id), Some(o.sha), Some(o.path), o.finalizedAt, filePresent)
  }

  lemma ScanMissing(temps: seq<TempFile>, finals: seq<FinalFile>, records: Records, f: Finding)
    requires f.kind.MissingReferenced?
    ensures f in OfClass(Scan(temps, finals, records), MissingReferenced)
       <==> f in FinalFindings(finals, records) || f in RowFindings(records.objects, finals, records)
  {
    ClassMembersAre(Scan(temps, finals, records), MissingReferenced);
    assert f !in TempFindings(temps);
  }

  /** A record of the listed objects is reported exactly when it is an incident. */
  lemma ReportsIncidents(temps: seq<TempFile>, finals: seq<FinalFile>, records: Records, i: nat)
    requires UniqueShas(records.objects) && UniqueFiles(finals) && i < |records.objects|
    ensures Incident(records.objects[i], finals, records) ==>
      Reports(OfClass(Scan(temps, finals, records), MissingReferenced), records.objects[i])
  {
    var o := records.objects[i];
    FindUnique(records.objects, i);
    if Incident(o, finals, records) {
      var file := FindFinal(finals, o.sha);
      var finding := MissingFinding(o, file.Some?);
      ScanMissing(temps, finals, records, finding);
      FinalMembers(finals, records, finding);
      RowMembers(records.objects, finals, records, finding);
      if file.Some? {
        var k :| 0 <= k < |finals| && finals[k] == file.value;
        assert finding in ClassifyFinal(finals[k], records);
      } else {
        assert finding in ClassifyRow(records.objects[i], finals, records);
      }
    }
  }

  lemma FileIncident(finals: seq<FinalFile>, records: Records, k: nat, f: Finding) returns (i: nat)
    requires UniqueFiles(finals) && k < |finals| && f in ClassifyFinal(finals[k], records) && f.kind.MissingReferenced?
    ensures i < |records.objects| && Incident(records.objects[i], finals, records) &&
            f == MissingFinding(records.objects[i], true)
  {
    var o := FindObject(records.objects, finals[k].sha).value;
    i :| 0 <= i < |records.objects| && records.objects[i] == o;
  }

  lemma RowIncident(finals: seq<FinalFile>, records: Records, i: nat, f: Finding)
    requires i < |records.objects| && f in ClassifyRow(records.objects[i], finals, records) && f.kind.MissingReferenced?
    ensures Incident(records.objects[i], finals, records) && f == MissingFinding(records.objects[i], false)
  {
  }

  /** And nothing else is reported. */
  lemma OnlyIncidents(temps: seq<TempFile>, finals: seq<FinalFile>, records: Records, f: Finding) returns (i: nat)
    requires UniqueFiles(finals)
    requires f in OfClass(Scan(temps, finals, records), MissingReferenced)
    ensures i < |records.objects| && Incident(records.objects[i], finals, records)
    ensures f == MissingFinding(records.objects[i], f.filePresent)
  {
    ClassMembersAre(Scan(temps, finals, records), MissingReferenced);
    ScanMissing(temps, finals, records, f);
    FinalMembers(finals, records, f);
    RowMembers(records.objects, finals, records, f);
    if k: nat :| k < |finals| && f in ClassifyFinal(finals[k], records) {
      i := FileIncident(finals, records, k, f);
    } else {
      i :| 0 <= i < |records.objects| && f in ClassifyRow(records.objects[i], finals, records);
      RowIncident(finals, records, i, f);
    }
  }

  predicate Unreferenced(records: Records, id: nat) {
    id !in records.references || records.references[id] == 0
  }

  /** A file without a record: its age counts from its last write. */
  predicate LooseFile(finals: seq<FinalFile>, records: Records, k: nat, f: Finding) {
    && k < |finals| && (forall i :: 0 <= i < |records.objects| ==> records.objects[i].sha != finals[k].sha)
    && f == Finding(UnreferencedFinal, None, Some(finals[k].sha), None, Some(finals[k].mtime), true)
  }

  /** A file whose record is not finalized, or not referenced: its age counts from the finalization, if any. */
  predicate LooseRecord(finals: seq<FinalFile>, records: Records, k: nat, i: nat, f: Finding) {
    && k < |finals| && i < |records.objects| && records.objects[i].sha == finals[k].sha
    && var o := records.objects[i];
       && (!o.state.Finalized? || Unreferenced(records, o.id))
       && f == Finding(UnreferencedFinal, Some(o.id), Some(o.sha), Some(o.path),
                       if o.state.Finalized? && o.finalizedAt.Some? then o.finalizedAt else Some(finals[k].mtime), true)
  }

  /** A finalized and unreferenced record whose file is gone. */
  predicate SettledRecord(finals: seq<FinalFile>, records: Records, i: nat, f: Finding) {
    && i < |records.objects|
    && var o := records.objects[i];
       && o.state.Finalized? && Unreferenced(records, o.id)
       && (forall k :: 0 <= k < |finals| ==> finals[k].sha != o.sha)
       && f == Finding(UnreferencedFinal, Some(o.id), Some(o.sha), Some(o.path), o.finalizedAt, false)
  }

  lemma LooseClassified(finals: seq<FinalFile>, records: Records, k: nat, f: Finding)
    requires UniqueShas(records.objects) && k < |finals| && f.kind.UnreferencedFinal?
    ensures f in ClassifyFinal(finals[k], records) <==>
            LooseFile(finals, records, k, f) || exists i: nat :: LooseRecord(finals, records, k, i, f)
  {
    var o := FindObject(records.objects, finals[k].sha);
    if o.Some? {
      var at: nat :| at < |records.objects| && records.objects[at] == o.value;
      if f in ClassifyFinal(finals[k], records) { assert LooseRecord(finals, records, k, at, f); }
      if i: nat :| LooseRecord(finals, records, k, i, f) { assert i == at; }
    } else {
      assert forall i :: 0 <= i < |records.objects| ==> records.objects[i] in records.objects;
    }
  }

  lemma SettledClassified(finals: seq<FinalFile>, records: Records, i: nat, f: Finding)
    requires i < |records.objects| && f.kind.UnreferencedFinal?
    ensures f in ClassifyRow(records.objects[i], finals, records) <==> SettledRecord(finals, records, i, f)
  {
    var file := FindFinal(finals, records.objects[i].sha);
    if file.Some? {
      var k :| 0 <= k < |finals| && finals[k] == file.value;
    } else {
      assert forall k :: 0 <= k < |finals| ==> finals[k] in finals;
    }
  }

  /** A sweepable finding is reported exactly for a loose file, or for an unreferenced record without a file. */
  lemma ReportsSweepable(temps: seq<TempFile>, finals: seq<FinalFile>, records: Records, f: Finding)
    requires UniqueShas(records.objects) && f.kind.UnreferencedFinal?
    ensures f in Scan(temps, finals, records) <==>
            || (exists k: nat :: LooseFile(finals, records, k, f))
            || (exists k: nat, i: nat :: LooseRecord(finals, records, k, i, f))
            || (exists i: nat :: SettledRecord(finals, records, i, f))
  {
    FinalMembers(finals, records, f);
    RowMembers(records.objects, finals, records, f);
    if k: nat :| k < |finals| && f in ClassifyFinal(finals[k], records) { LooseClassified(finals, records, k, f); }
    if k: nat :| LooseFile(finals, records, k, f) { LooseClassified(finals, records, k, f); }
    if k: nat, i: nat :| LooseRecord(finals, records, k, i, f) { LooseClassified(finals, records, k, f); }
    if i: nat :| i < |records.objects| && f in ClassifyRow(records.objects[i], finals, records) {
      SettledClassified(finals, records, i, f);
    }
    if i: nat :| SettledRecord(finals, records, i, f) { SettledClassified(finals, records, i, f); }
    assert f !in TempFindings(temps);
  }

  /** And a temporary is reported for each staged file, with its last write. */
  lemma ReportsTemporaries(temps: seq<TempFile>, finals: seq<FinalFile>, records: Records, f: Finding)
    requires f.kind.OrphanTemporary?
    ensures f in Scan(temps, finals, records) <==>
            exists i :: 0 <= i < |temps|
                        && f == Finding(OrphanTemporary, None, None, Some(temps[i].path), Some(temps[i].mtime), true)
  {
    FinalKinds(finals, records);
    RowKinds(records.objects, finals, records);
    if i :| 0 <= i < |temps|
            && f == Finding(OrphanTemporary, None, None, Some(temps[i].path), Some(temps[i].mtime), true) {
      assert TempFindings(temps)[i] == f;
    }
  }
}
