/**
 The studio artifact lifecycle: generate, edit, regenerate, cancel and mark-out-of-date race on
 artifact rows whose only synchronization is a compare-and-swap of the status column.

 Every store operation is one transaction, so a use case is a sequence of atomic steps, one program
 counter per store operation still to be done, and a run interleaves the steps of any number of
 calls on any number of artifacts.
 */
module ArtifactLifecycle {
  import opened Common
  import opened Decimals

  datatype Status = Draft | Generating | Validating | Ready | Failed | Cancelled | OutOfDate

  /** ARTIFACT_TRANSITIONS. */
  predicate TransitionAllowed(current: Status, target: Status) {
    match current
    case Draft => target.Generating? || target.Cancelled?
    case Generating => target.Validating? || target.Failed? || target.Cancelled?
    case Validating => target.Ready? || target.Failed? || target.Cancelled?
    case Ready => target.Generating? || target.OutOfDate?
    case OutOfDate => target.Generating?
    case Failed => false
    case Cancelled => false
  }

  // --------------------------------------------------------------- the store

  datatype Version = Version(id: nat, number: int, manifest: nat, content: int)

  /** A row of `artifacts` with the rows of `artifact_versions` that name it, in insertion order. */
  datatype Row = Row(status: Status, current: Option<nat>, revision: nat, etag: string, versions: seq<Version>)

  datatype Manifest = Manifest(parent: Option<nat>, base: Option<int>)

  /** Artifact and manifest ids are table positions; `minted` is the next fresh version id. */
  datatype Store = Store(rows: seq<Row>, manifests: seq<Manifest>, minted: nat)

  const NEW_ROW := Row(Draft, None, 0, Decimal(0), [])

  predicate CasWins(st: Store, a: nat, expected: Status) {
    a < |st.rows| && st.rows[a].status == expected
  }

  /** cas_status, with the optional `current_version_id` update of the ready publication. */
  function Cas(st: Store, a: nat, expected: Status, target: Status, current: Option<nat>): Store {
    if CasWins(st, a, expected) then
      var row := st.rows[a];
      st.(rows := st.rows[a := row.(
            status := target,
            revision := row.revision + 1,
            etag := Decimal(row.revision + 1),
            current := if current.Some? then current else row.current)])
    else st
  }

  function FindNumber(versions: seq<Version>, number: int): (k: nat)
    ensures k <= |versions|
    ensures k < |versions| ==> versions[k].number == number
    ensures forall j :: 0 <= j < k ==> versions[j].number != number
  {
    if versions == [] then 0
    else if versions[0].number == number then 0
    else 1 + FindNumber(versions[1..], number)
  }

  function FindId(versions: seq<Version>, id: nat): (k: nat)
    ensures k <= |versions|
    ensures k < |versions| ==> versions[k].id == id
    ensures forall j :: 0 <= j < k ==> versions[j].id != id
  {
    if versions == [] then 0
    else if versions[0].id == id then 0
    else 1 + FindId(versions[1..], id)
  }

  /** max(version numbers, default 0). */
  function MaxNumber(versions: seq<Version>): int {
    if versions == [] then 0
    else if |versions| == 1 then versions[0].number
    else
      var rest := MaxNumber(versions[..|versions| - 1]);
      var last := versions[|versions| - 1].number;
      if last > rest then last else rest
  }

  // ---------------------------------------------------------------- the calls

  datatype Request =
    | Generate(base: Option<int>)
    | Edit(etag: string)
    | Regenerate(number: int)
    | Cancel
    | MarkOutOfDate

  /** What the recipe will do: refuse the request, return content, report problems, or raise. */
  datatype Recipe = Refuses | Produces(content: int) | Reports | Raises

  datatype Outcome =
    | Published(number: int)
    | Conflict | Absent | NotReady | Invalid | Problems | LostCas | MissingBase | Raised | Updated
    | Died(active: bool)

  datatype Pc =
    | Entry                                            // get_artifact
    | FindBase(seen: Status, current: nat)             // list_versions, for the edited base
    | Claim(seen: Status, base: Option<int>)           // CAS to generating
    | Resolve(base: Option<int>)                       // get_version of the base
    | Freeze(parent: Option<nat>, base: Option<int>)   // freeze_manifest
    | ToValidating(manifest: nat)                      // CAS generating to validating, result ignored
    | Produce(manifest: nat)                           // plan, generate, validate, render
    | Number(manifest: nat, content: int)              // list_versions, for the next number
    | Insert(manifest: nat, content: int, number: int) // create_version
    | ToReady(version: nat, number: int)               // CAS validating to ready
    | FailRead(why: Outcome)                           // _mark_failed: get_artifact
    | FailCas(why: Outcome, seen: Status)              // _mark_failed: CAS to failed
    | CancelCas(seen: Status)
    | StaleCas(seen: Status)
    | Done(outcome: Outcome)

  datatype Call = Call(artifact: nat, request: Request, recipe: Recipe, pc: Pc)

  /** The first store operation of a call, and what it decides from the row it read. */
  function Enter(st: Store, c: Call): Pc {
    if c.artifact >= |st.rows| then Done(Absent)
    else
      var row := st.rows[c.artifact];
      match c.request
      case Generate(base) =>
        if c.recipe.Refuses? then Done(Invalid)
        else if !row.status.Draft? then Done(Conflict)
        else Claim(Draft, base)
      case Edit(etag) =>
        if row.etag != etag then Done(Conflict)
        else if !row.status.Ready? && !row.status.OutOfDate? then Done(NotReady)
        else if c.recipe.Refuses? then Done(Invalid)
        else if row.current.None? then Done(NotReady)
        else FindBase(row.status, row.current.value)
      case Regenerate(number) =>
        if !row.status.Ready? && !row.status.OutOfDate? then Done(NotReady)
        else if c.recipe.Refuses? then Done(Invalid)
        else Claim(row.status, Some(number))
      case Cancel =>
        if TransitionAllowed(row.status, Cancelled) then CancelCas(row.status) else Done(NotReady)
      case MarkOutOfDate =>
        if TransitionAllowed(row.status, OutOfDate) then StaleCas(row.status) else Done(NotReady)
  }

  predicate CanStep(st: Store, c: Call) {
    !c.pc.Done? && (c.pc.Entry? || c.artifact < |st.rows|)
  }

  /** One store operation of a call, with the local computation that follows it. */
  function StepCall(st: Store, c: Call): (r: (Store, Pc))
    requires CanStep(st, c)
    ensures |r.0.rows| == |st.rows|
  {
    var a := c.artifact;
    match c.pc
    case Entry => (st, Enter(st, c))
    case FindBase(seen, current) =>
      var versions := st.rows[a].versions;
      var k := FindId(versions, current);
      (st, Claim(seen, if k < |versions| then Some(versions[k].number) else None))
    case Claim(seen, base) =>
      (Cas(st, a, seen, Generating, None), if CasWins(st, a, seen) then Resolve(base) else Done(Conflict))
    case Resolve(base) =>
      if base.None? then (st, Freeze(None, None))
      else
        var versions := st.rows[a].versions;
        var k := FindNumber(versions, base.value);
        (st, if k < |versions| then Freeze(Some(versions[k].manifest), base) else Done(MissingBase))
    case Freeze(parent, base) =>
      (st.(manifests := st.manifests + [Manifest(parent, base)]), ToValidating(|st.manifests|))
    case ToValidating(m) => (Cas(st, a, Generating, Validating, None), Produce(m))
    case Produce(m) =>
      (st, match c.recipe
           case Produces(content) => Number(m, content)
           case Reports => FailRead(Problems)
           case Raises => Done(Raised)
           case Refuses => Done(Raised))
    case Number(m, content) => (st, Insert(m, content, MaxNumber(st.rows[a].versions) + 1))
    case Insert(m, content, number) =>
      var row := st.rows[a];
      (st.(rows := st.rows[a := row.(versions := row.versions + [Version(st.minted, number, m, content)])],
           minted := st.minted + 1),
       ToReady(st.minted, number))
    case ToReady(v, number) =>
      (Cas(st, a, Validating, Ready, Some(v)),
       if CasWins(st, a, Validating) then Done(Published(number)) else FailRead(LostCas))
    case FailRead(why) =>
      var seen := st.rows[a].status;
      (st, if TransitionAllowed(seen, Failed) then FailCas(why, seen) else Done(why))
    case FailCas(why, seen) => (Cas(st, a, seen, Failed, None), Done(why))
    case CancelCas(seen) =>
      (Cas(st, a, seen, Cancelled, None), Done(if CasWins(st, a, seen) then Updated else LostCas))
    case StaleCas(seen) =>
      (Cas(st, a, seen, OutOfDate, None), Done(if CasWins(st, a, seen) then Updated else LostCas))
  }

  // ------------------------------------------------------------- interleaving

  datatype State = State(store: Store, calls: seq<Call>)

  const INIT := State(Store([], [], 0), [])

  function Advance(s: State, i: nat): State
    requires i < |s.calls| && CanStep(s.store, s.calls[i])
  {
    var r := StepCall(s.store, s.calls[i]);
    State(r.0, s.calls[i := s.calls[i].(pc := r.1)])
  }

  ghost predicate Advances(s: State, i: nat, s': State) {
    i < |s.calls| && CanStep(s.store, s.calls[i]) && s' == Advance(s, i)
  }

  ghost predicate Arrives(s: State, c: Call, s': State) {
    c.pc.Entry? && s' == s.(calls := s.calls + [c])
  }

  ghost predicate Creates(s: State, s': State) {
    s' == s.(store := s.store.(rows := s.store.rows + [NEW_ROW]))
  }

  /**
   A call dies before its next store operation, of an error that no handler catches (of the store, of
   the blob store) or with its process. An operation that committed and then failed is a step and a
   death after it.
   */
  ghost predicate Dies(s: State, i: nat, s': State) {
    && i < |s.calls| && !s.calls[i].pc.Done?
    && s' == s.(calls := s.calls[i := s.calls[i].(pc := Done(Died(Active(s.calls[i].pc))))])
  }

  ghost predicate Step(s: State, s': State) {
    || (exists i: nat :: Advances(s, i, s'))
    || (exists i: nat :: Dies(s, i, s'))
    || (exists c :: Arrives(s, c, s'))
    || Creates(s, s')
  }

  ghost predicate StepAt(states: seq<State>, i: nat)
    requires 0 < i < |states|
  {
    Step(states[i - 1], states[i])
  }

  /** Finite executions; any state of one is reachable. */
  ghost predicate Run(states: seq<State>) {
    && |states| > 0 && states[0] == INIT
    && (forall i :: 0 < i < |states| ==> StepAt(states, i))
  }

  // ------------------------------------------------------------ the invariant

  /** Between the claim and the end of the pipeline, zombies of a cancelled artifact included. */
  predicate Active(pc: Pc) {
    pc.Resolve? || pc.Freeze? || pc.ToValidating? || pc.Produce? || pc.Number? || pc.Insert?
    || pc.ToReady? || pc.FailRead? || pc.FailCas?
  }

  /** Ended by an uncaught error after a won claim. */
  predicate Crashed(pc: Pc) {
    pc.Done? && (pc.outcome.MissingBase? || pc.outcome.Raised? || (pc.outcome.Died? && pc.outcome.active))
  }

  /** The statuses an artifact can have while a pipeline is at `pc`, if nobody cancels it. */
  predicate Fits(status: Status, pc: Pc) {
    || status.Cancelled?
    || (if pc.Resolve? || pc.Freeze? || pc.ToValidating? then status.Generating? else status.Validating?)
  }

  ghost predicate HasManifest(versions: seq<Version>, m: nat) {
    exists k :: 0 <= k < |versions| && versions[k].manifest == m
  }

  ghost predicate HasId(versions: seq<Version>, id: nat) {
    exists k :: 0 <= k < |versions| && versions[k].id == id
  }

  ghost predicate ParentOk(versions: seq<Version>, parent: Option<nat>) {
    parent.Some? ==> HasManifest(versions, parent.value)
  }

  /** The manifest of the version being produced descends from a version already there. */
  ghost predicate FreshManifest(st: Store, versions: seq<Version>, m: nat) {
    && m < |st.manifests|
    && ParentOk(versions, st.manifests[m].parent)
    && (forall k :: 0 <= k < |versions| ==> versions[k].manifest < m)
  }

  ghost predicate NumbersOk(versions: seq<Version>) {
    forall k :: 0 <= k < |versions| ==> versions[k].number == k + 1
  }

  ghost predicate LineageOk(st: Store, versions: seq<Version>) {
    && (forall k :: 0 <= k < |versions| ==> versions[k].manifest < |st.manifests|)
    && (forall j, k :: 0 <= j < k < |versions| ==> versions[j].manifest < versions[k].manifest)
    && (forall k :: 0 <= k < |versions| ==>
          ParentOk(versions[..k], st.manifests[versions[k].manifest].parent))
  }

  ghost predicate IdsOk(st: Store, versions: seq<Version>) {
    && (forall k :: 0 <= k < |versions| ==> versions[k].id < st.minted)
    && (forall j, k :: 0 <= j < k < |versions| ==> versions[j].id < versions[k].id)
  }

  ghost predicate PointerOk(row: Row) {
    && (row.current.Some? ==> HasId(row.versions, row.current.value))
    && (row.status.Draft? ==> row.current.None? && row.versions == [])
    && (row.status.Ready? || row.status.OutOfDate? ==>
          |row.versions| > 0 && row.current == Some(row.versions[|row.versions| - 1].id))
  }

  ghost predicate RowOk(st: Store, row: Row) {
    && NumbersOk(row.versions) && LineageOk(st, row.versions) && IdsOk(st, row.versions)
    && PointerOk(row)
    && row.etag == Decimal(row.revision)
  }

  predicate Settled(status: Status) { status.Ready? || status.OutOfDate? }

  ghost predicate BaseOk(c: Call, versions: seq<Version>, base: Option<int>) {
    match c.request
    case Generate(wanted) => base == wanted
    case Edit(_) => base.Some? && 1 <= base.value <= |versions|
    case Regenerate(number) => base == Some(number)
    case _ => false
  }

  ghost predicate CallOk(st: Store, c: Call) {
    match c.pc
    case Entry => true
    case Done(_) => true
    case FindBase(seen, current) =>
      && c.artifact < |st.rows| && c.request.Edit? && !c.recipe.Refuses? && Settled(seen)
      && HasId(st.rows[c.artifact].versions, current)
    case Claim(seen, base) =>
      && c.artifact < |st.rows| && !c.recipe.Refuses? && (Settled(seen) || seen.Draft?)
      && (seen.Draft? <==> c.request.Generate?)
      && BaseOk(c, st.rows[c.artifact].versions, base)
    case CancelCas(seen) => c.artifact < |st.rows| && TransitionAllowed(seen, Cancelled)
    case StaleCas(seen) => c.artifact < |st.rows| && seen.Ready?
    case _ => c.artifact < |st.rows| && PipelineOk(st, st.rows[c.artifact], c)
  }

  ghost predicate PipelineOk(st: Store, row: Row, c: Call)
    requires Active(c.pc)
  {
    && Fits(row.status, c.pc)
    && !c.recipe.Refuses?
    && match c.pc
       case Resolve(base) => BaseOk(c, row.versions, base)
       case Freeze(parent, _) => ParentOk(row.versions, parent)
       case ToValidating(m) => FreshManifest(st, row.versions, m)
       case Produce(m) => FreshManifest(st, row.versions, m)
       case Number(m, _) => FreshManifest(st, row.versions, m)
       case Insert(m, _, number) => FreshManifest(st, row.versions, m) && number == |row.versions| + 1
       case ToReady(v, number) =>
         |row.versions| > 0 && row.versions[|row.versions| - 1].id == v && number == |row.versions|
       case FailRead(why) => why.Problems? || why.LostCas?
       case FailCas(why, seen) => (why.Problems? || why.LostCas?) && seen.Validating?
       case _ => true
  }

  /** The status CAS is a lock: one pipeline per artifact. */
  ghost predicate LockOk(s: State) {
    forall i, j | 0 <= i < |s.calls| && 0 <= j < |s.calls| && Active(s.calls[i].pc) && Active(s.calls[j].pc) ::
      s.calls[i].artifact == s.calls[j].artifact ==> i == j
  }

  /** An artifact is left in flight only by a pipeline that is running or that died of an uncaught error. */
  ghost predicate Owned(s: State, a: nat) {
    exists i :: 0 <= i < |s.calls| && s.calls[i].artifact == a && (Active(s.calls[i].pc) || Crashed(s.calls[i].pc))
  }

  ghost predicate InFlightOk(s: State) {
    && (forall a :: 0 <= a < |s.store.rows| ==>
          (s.store.rows[a].status.Generating? || s.store.rows[a].status.Validating? ==> Owned(s, a)))
    && (forall i :: 0 <= i < |s.calls| && Crashed(s.calls[i].pc) ==> CrashOk(s, s.calls[i].artifact))
  }

  /** After a crash no pipeline runs on the artifact, and only a cancel can move it. */
  ghost predicate CrashOk(s: State, a: nat) {
    && a < |s.store.rows|
    && (s.store.rows[a].status.Generating? || s.store.rows[a].status.Validating? || s.store.rows[a].status.Cancelled?)
    && (forall j :: 0 <= j < |s.calls| && s.calls[j].artifact == a ==> !Active(s.calls[j].pc))
  }

  ghost predicate ManifestsOk(st: Store) {
    forall m :: 0 <= m < |st.manifests| && st.manifests[m].parent.Some? ==> st.manifests[m].parent.value < m
  }

  ghost predicate Inv(s: State) {
    && (forall a :: 0 <= a < |s.store.rows| ==> RowOk(s.store, s.store.rows[a]))
    && (forall i :: 0 <= i < |s.calls| ==> CallOk(s.store, s.calls[i]))
    && ManifestsOk(s.store) && LockOk(s) && InFlightOk(s)
  }

  // ------------------------------------------------- what a step leaves standing

  /** Rows, manifests and versions are only ever added. */
  ghost predicate Extends(st: Store, st': Store) {
    && |st.rows| <= |st'.rows| && st.manifests <= st'.manifests && st.minted <= st'.minted
    && (forall a :: 0 <= a < |st.rows| ==> st.rows[a].versions <= st'.rows[a].versions)
  }

  lemma StepExtends(st: Store, c: Call)
    requires CanStep(st, c)
    ensures Extends(st, StepCall(st, c).0)
    ensures forall a :: 0 <= a < |st.rows| && a != c.artifact ==> StepCall(st, c).0.rows[a] == st.rows[a]
  {
  }

  lemma RowStable(st: Store, st': Store, row: Row)
    requires RowOk(st, row) && st.manifests <= st'.manifests && st.minted <= st'.minted
    ensures RowOk(st', row)
  {
    forall k | 0 <= k < |row.versions|
      ensures row.versions[k].manifest < |st'.manifests|
      ensures ParentOk(row.versions[..k], st'.manifests[row.versions[k].manifest].parent)
    {
      assert st'.manifests[row.versions[k].manifest] == st.manifests[row.versions[k].manifest];
    }
  }

  /** A call keeps what it relies on, if its pipeline sees at most a cancellation. */
  lemma CallStable(st: Store, st': Store, c: Call)
    requires CallOk(st, c) && Extends(st, st')
    requires Active(c.pc) ==>
               && st'.rows[c.artifact].versions == st.rows[c.artifact].versions
               && (st'.rows[c.artifact].status == st.rows[c.artifact].status || st'.rows[c.artifact].status.Cancelled?)
    ensures CallOk(st', c)
  {
    if c.pc.FindBase? {
      var k :| 0 <= k < |st.rows[c.artifact].versions| && st.rows[c.artifact].versions[k].id == c.pc.current;
      assert st'.rows[c.artifact].versions[k] == st.rows[c.artifact].versions[k];
    }
  }

  /** A step outside a pipeline touches only the status, and an in-flight one only to cancel it. */
  lemma OutsidePipeline(st: Store, c: Call)
    requires CanStep(st, c) && CallOk(st, c) && !Active(c.pc) && c.artifact < |st.rows|
    ensures var row, row' := st.rows[c.artifact], StepCall(st, c).0.rows[c.artifact];
            && row'.versions == row.versions && row'.current == row.current
            && (row'.status != row.status ==>
                  || row'.status.Cancelled?
                  || Settled(row.status) || row.status.Draft?)
  {
  }

  // ------------------------------------------------------- a call's own step

  lemma CasRow(st: Store, a: nat, expected: Status, target: Status, current: Option<nat>)
    requires CasWins(st, a, expected) && RowOk(st, st.rows[a])
    requires !target.Draft? && (Settled(target) && !Settled(expected) ==> current.Some?)
    requires current.Some? ==>
      |st.rows[a].versions| > 0 && current.value == st.rows[a].versions[|st.rows[a].versions| - 1].id
    ensures RowOk(Cas(st, a, expected, target, current), Cas(st, a, expected, target, current).rows[a])
  {
  }

  lemma {:induction false} MaxIsLast(versions: seq<Version>)
    requires NumbersOk(versions)
    ensures MaxNumber(versions) == |versions|
  {
    if |versions| > 1 { MaxIsLast(versions[..|versions| - 1]); }
  }

  /** Publishing the next number keeps the numbering, the lineage and the ids of a row. */
  lemma InsertRow(st: Store, st': Store, row: Row, m: nat, content: int)
    requires RowOk(st, row) && FreshManifest(st, row.versions, m) && (row.status.Validating? || row.status.Cancelled?)
    requires st'.manifests == st.manifests && st'.minted == st.minted + 1
    ensures RowOk(st', row.(versions := row.versions + [Version(st.minted, |row.versions| + 1, m, content)]))
  {
    var after := row.versions + [Version(st.minted, |row.versions| + 1, m, content)];
    forall k | 0 <= k < |after| ensures ParentOk(after[..k], st.manifests[after[k].manifest].parent) {
      assert after[..k] == row.versions[..k];
      assert row.versions[..|row.versions|] == row.versions;
    }
    if row.current.Some? {
      var k :| 0 <= k < |row.versions| && row.versions[k].id == row.current.value;
      assert after[k].id == row.current.value;
    }
  }

  predicate IsCas(pc: Pc) {
    pc.Claim? || pc.ToValidating? || pc.ToReady? || pc.FailCas? || pc.CancelCas? || pc.StaleCas?
  }

  /** The expected and target status of a CAS step, and the version it publishes. */
  function CasOf(pc: Pc): (Status, Status, Option<nat>)
    requires IsCas(pc)
  {
    match pc
    case Claim(seen, _) => (seen, Generating, None)
    case ToValidating(_) => (Generating, Validating, None)
    case ToReady(v, _) => (Validating, Ready, Some(v))
    case FailCas(_, seen) => (seen, Failed, None)
    case CancelCas(seen) => (seen, Cancelled, None)
    case StaleCas(seen) => (seen, OutOfDate, None)
  }

  lemma CasSteps(st: Store, c: Call)
    requires CanStep(st, c) && IsCas(c.pc)
    ensures var (expected, target, current) := CasOf(c.pc);
            StepCall(st, c).0 == Cas(st, c.artifact, expected, target, current)
  {
  }

  lemma InPipeline(st: Store, c: Call)
    requires CallOk(st, c) && Active(c.pc)
    ensures c.artifact < |st.rows| && PipelineOk(st, st.rows[c.artifact], c)
  {
  }

  lemma OwnCas(st: Store, c: Call)
    requires CanStep(st, c) && CallOk(st, c) && c.artifact < |st.rows| && RowOk(st, st.rows[c.artifact])
    requires IsCas(c.pc)
    ensures RowOk(StepCall(st, c).0, StepCall(st, c).0.rows[c.artifact])
  {
    var (expected, target, current) := CasOf(c.pc);
    CasSteps(st, c);
    if CasWins(st, c.artifact, expected) {
      if Active(c.pc) { InPipeline(st, c); }
      CasRow(st, c.artifact, expected, target, current);
    }
  }

  lemma OwnRow(st: Store, c: Call)
    requires CanStep(st, c) && CallOk(st, c) && c.artifact < |st.rows| && RowOk(st, st.rows[c.artifact])
    ensures RowOk(StepCall(st, c).0, StepCall(st, c).0.rows[c.artifact])
  {
    var st', row := StepCall(st, c).0, st.rows[c.artifact];
    if IsCas(c.pc) {
      OwnCas(st, c);
    } else if c.pc.Insert? {
      InPipeline(st, c);
      InsertRow(st, st', row, c.pc.manifest, c.pc.content);
    } else {
      RowStable(st, st', row);
    }
  }

  lemma OwnCall(st: Store, c: Call)
    requires CanStep(st, c) && CallOk(st, c) && (c.artifact < |st.rows| ==> RowOk(st, st.rows[c.artifact]))
    ensures CallOk(StepCall(st, c).0, c.(pc := StepCall(st, c).1))
  {
    if Active(c.pc) {
      InPipeline(st, c);
      OwnPipeline(st, c);
    } else if c.pc.FindBase? {
      assert HasId(st.rows[c.artifact].versions, c.pc.current);
    }
  }

  lemma OwnPipeline(st: Store, c: Call)
    requires CanStep(st, c) && Active(c.pc) && c.artifact < |st.rows|
    requires RowOk(st, st.rows[c.artifact]) && PipelineOk(st, st.rows[c.artifact], c)
    ensures Active(StepCall(st, c).1) ==>
              PipelineOk(StepCall(st, c).0, StepCall(st, c).0.rows[c.artifact], c.(pc := StepCall(st, c).1))
  {
    var versions := st.rows[c.artifact].versions;
    match c.pc
    case Resolve(base) =>
      if base.Some? && FindNumber(versions, base.value) < |versions| {
        assert HasManifest(versions, versions[FindNumber(versions, base.value)].manifest);
      }
    case Number(_, _) => MaxIsLast(versions);
    case _ =>
  }

  lemma OwnManifests(st: Store, c: Call)
    requires CanStep(st, c) && CallOk(st, c) && ManifestsOk(st)
    requires c.artifact < |st.rows| ==> RowOk(st, st.rows[c.artifact])
    ensures ManifestsOk(StepCall(st, c).0)
  {
  }

  // -------------------------------------------------------------- preservation

  lemma AdvanceRows(s: State, i: nat)
    requires Inv(s) && i < |s.calls| && CanStep(s.store, s.calls[i])
    ensures forall a :: 0 <= a < |s.store.rows| ==> RowOk(Advance(s, i).store, Advance(s, i).store.rows[a])
    ensures |Advance(s, i).store.rows| == |s.store.rows|
  {
    var st, c := s.store, s.calls[i];
    var st' := StepCall(st, c).0;
    StepExtends(st, c);
    if c.artifact < |st.rows| { OwnRow(st, c); }
    forall a | 0 <= a < |st.rows| && a != c.artifact ensures RowOk(st', st'.rows[a]) {
      RowStable(st, st', st.rows[a]);
    }
  }

  lemma AdvanceCalls(s: State, i: nat)
    requires Inv(s) && i < |s.calls| && CanStep(s.store, s.calls[i])
    ensures forall j :: 0 <= j < |s.calls| ==> CallOk(Advance(s, i).store, Advance(s, i).calls[j])
  {
    var st, c := s.store, s.calls[i];
    var st' := StepCall(st, c).0;
    StepExtends(st, c);
    OwnCall(st, c);
    forall j | 0 <= j < |s.calls| && j != i ensures CallOk(st', s.calls[j]) {
      OtherCall(st, c, s.calls[j]);
    }
  }

  /** Another call survives the step: two pipelines never share an artifact. */
  lemma OtherCall(st: Store, c: Call, d: Call)
    requires CanStep(st, c) && CallOk(st, c) && CallOk(st, d)
    requires Active(c.pc) && Active(d.pc) ==> c.artifact != d.artifact
    ensures CallOk(StepCall(st, c).0, d)
  {
    StepExtends(st, c);
    if Active(d.pc) {
      InPipeline(st, d);
      if d.artifact == c.artifact { OutsidePipeline(st, c); }
    }
    CallStable(st, StepCall(st, c).0, d);
  }

  /** A pipeline starts only by winning the claim, on an artifact nobody is generating. */
  lemma AdvanceLock(s: State, i: nat)
    requires Inv(s) && i < |s.calls| && CanStep(s.store, s.calls[i])
    ensures LockOk(Advance(s, i))
  {
    var c, s' := s.calls[i], Advance(s, i);
    if Active(s'.calls[i].pc) && !Active(c.pc) {
      assert c.pc.Claim? && CasWins(s.store, c.artifact, c.pc.seen);
      forall j | 0 <= j < |s.calls| && Active(s.calls[j].pc) ensures s.calls[j].artifact != c.artifact {
        assert CallOk(s.store, s.calls[j]);
      }
    }
  }

  lemma AdvanceOwned(s: State, i: nat, a: nat)
    requires Inv(s) && i < |s.calls| && CanStep(s.store, s.calls[i])
    requires a < |s.store.rows| == |Advance(s, i).store.rows|
    requires Advance(s, i).store.rows[a].status.Generating? || Advance(s, i).store.rows[a].status.Validating?
    ensures Owned(Advance(s, i), a)
  {
    var c, s' := s.calls[i], Advance(s, i);
    StepExtends(s.store, c);
    if c.artifact == a && Active(s'.calls[i].pc) {
      assert s'.calls[i].artifact == a;
    } else {
      assert s.store.rows[a].status.Generating? || s.store.rows[a].status.Validating?;
      var j :| 0 <= j < |s.calls| && s.calls[j].artifact == a && (Active(s.calls[j].pc) || Crashed(s.calls[j].pc));
      assert s'.calls[j].artifact == a && (Active(s'.calls[j].pc) || Crashed(s'.calls[j].pc));
    }
  }

  /** A call without a pipeline starts none on an artifact that is being produced or was cancelled. */
  lemma QuietStep(st: Store, c: Call)
    requires CanStep(st, c) && CallOk(st, c) && !Active(c.pc) && c.artifact < |st.rows|
    requires var status := st.rows[c.artifact].status; status.Generating? || status.Validating? || status.Cancelled?
    ensures !Active(StepCall(st, c).1)
    ensures var status := StepCall(st, c).0.rows[c.artifact].status;
            status.Generating? || status.Validating? || status.Cancelled?
  {
    OutsidePipeline(st, c);
  }

  lemma AdvanceCrashed(s: State, i: nat, j: nat)
    requires Inv(s) && i < |s.calls| && CanStep(s.store, s.calls[i])
    requires j < |s.calls| && Crashed(Advance(s, i).calls[j].pc)
    ensures CrashOk(Advance(s, i), s.calls[j].artifact)
  {
    var c, s' := s.calls[i], Advance(s, i);
    var a := s.calls[j].artifact;
    StepExtends(s.store, c);
    if j == i {
      InPipeline(s.store, c);
    } else {
      assert CrashOk(s, a);
      if c.artifact == a {
        QuietStep(s.store, c);
      }
    }
  }

  lemma AdvanceKeeps(s: State, i: nat)
    requires Inv(s) && i < |s.calls| && CanStep(s.store, s.calls[i])
    ensures Inv(Advance(s, i))
  {
    var s' := Advance(s, i);
    AdvanceRows(s, i);
    AdvanceCalls(s, i);
    AdvanceLock(s, i);
    OwnManifests(s.store, s.calls[i]);
    forall a | 0 <= a < |s'.store.rows| && (s'.store.rows[a].status.Generating? || s'.store.rows[a].status.Validating?)
      ensures Owned(s', a)
    {
      AdvanceOwned(s, i, a);
    }
    forall j | 0 <= j < |s'.calls| && Crashed(s'.calls[j].pc) ensures CrashOk(s', s'.calls[j].artifact) {
      AdvanceCrashed(s, i, j);
    }
  }

  lemma CreateKeeps(s: State, s': State)
    requires Inv(s) && Creates(s, s')
    ensures Inv(s')
  {
    forall a | 0 <= a < |s'.store.rows| ensures RowOk(s'.store, s'.store.rows[a]) {
      if a < |s.store.rows| { RowStable(s.store, s'.store, s.store.rows[a]); }
    }
    forall j | 0 <= j < |s.calls| ensures CallOk(s'.store, s.calls[j]) {
      if Active(s.calls[j].pc) { InPipeline(s.store, s.calls[j]); }
      CallStable(s.store, s'.store, s.calls[j]);
    }
    CreateInFlight(s, s');
  }

  lemma CreateInFlight(s: State, s': State)
    requires InFlightOk(s) && Creates(s, s')
    ensures InFlightOk(s')
  {
    forall a | 0 <= a < |s'.store.rows| && (s'.store.rows[a].status.Generating? || s'.store.rows[a].status.Validating?)
      ensures Owned(s', a)
    {
      assert Owned(s, a);
    }
    forall j | 0 <= j < |s.calls| && Crashed(s.calls[j].pc) ensures CrashOk(s', s.calls[j].artifact) {
      assert CrashOk(s, s.calls[j].artifact);
    }
  }

  lemma ArriveKeeps(s: State, c: Call, s': State)
    requires Inv(s) && Arrives(s, c, s')
    ensures Inv(s')
  {
    forall a | 0 <= a < |s'.store.rows| && (s'.store.rows[a].status.Generating? || s'.store.rows[a].status.Validating?)
      ensures Owned(s', a)
    {
      var i :| 0 <= i < |s.calls| && s.calls[i].artifact == a && (Active(s.calls[i].pc) || Crashed(s.calls[i].pc));
      assert s'.calls[i] == s.calls[i];
    }
    forall j | 0 <= j < |s'.calls| && Crashed(s'.calls[j].pc) ensures CrashOk(s', s'.calls[j].artifact) {
      assert CrashOk(s, s.calls[j].artifact);
    }
  }

  lemma DieKeeps(s: State, i: nat, s': State)
    requires Inv(s) && Dies(s, i, s')
    ensures Inv(s')
  {
    forall j | 0 <= j < |s.calls| ensures CallOk(s'.store, s'.calls[j]) {
      assert j != i ==> CallOk(s.store, s.calls[j]);
    }
    DieInFlight(s, i, s');
  }

  lemma DieInFlight(s: State, i: nat, s': State)
    requires Inv(s) && Dies(s, i, s')
    ensures InFlightOk(s')
  {
    forall a | 0 <= a < |s'.store.rows| && (s'.store.rows[a].status.Generating? || s'.store.rows[a].status.Validating?)
      ensures Owned(s', a)
    {
      var j :| 0 <= j < |s.calls| && s.calls[j].artifact == a && (Active(s.calls[j].pc) || Crashed(s.calls[j].pc));
      assert s'.calls[j].artifact == a && (Active(s'.calls[j].pc) || Crashed(s'.calls[j].pc));
    }
    forall j | 0 <= j < |s'.calls| && Crashed(s'.calls[j].pc) ensures CrashOk(s', s'.calls[j].artifact) {
      if j == i {
        InPipeline(s.store, s.calls[i]);
      } else {
        assert CrashOk(s, s.calls[j].artifact);
      }
    }
  }

  lemma StepKeeps(s: State, s': State)
    requires Inv(s) && Step(s, s')
    ensures Inv(s')
  {
    if i: nat :| Advances(s, i, s') {
      AdvanceKeeps(s, i);
    } else if i: nat :| Dies(s, i, s') {
      DieKeeps(s, i, s');
    } else if c :| Arrives(s, c, s') {
      ArriveKeeps(s, c, s');
    } else {
      CreateKeeps(s, s');
    }
  }

  lemma {:induction false} RunKeeps(states: seq<State>, i: nat)
    requires Run(states) && i < |states|
    ensures Inv(states[i])
  {
    if i > 0 {
      RunKeeps(states, i - 1);
      assert StepAt(states, i);
      StepKeeps(states[i - 1], states[i]);
    }
  }

  /** Every step from the last state of a run continues it. */
  lemma RunGrows(states: seq<State>, s': State)
    requires Run(states) && Step(states[|states| - 1], s')
    ensures Run([INIT]) && Run(states + [s'])
  {
    var longer := states + [s'];
    forall i | 0 < i < |longer| ensures StepAt(longer, i) {
      if i < |states| { assert StepAt(states, i); }
    }
  }

  // ------------------------------------------------------------- main results

  /** Over all interleavings one pipeline at most runs per artifact, zombies of a cancelled one included. */
  lemma OnePipelinePerArtifact(states: seq<State>, n: nat, i: nat, j: nat)
    requires Run(states) && n < |states| && i < |states[n].calls| && j < |states[n].calls|
    requires Active(states[n].calls[i].pc) && Active(states[n].calls[j].pc)
    requires states[n].calls[i].artifact == states[n].calls[j].artifact
    ensures i == j
  {
    RunKeeps(states, n);
  }

  /** Version numbers are exactly 1..n, and the number about to be inserted is the next one. */
  lemma NumbersNeverCollide(states: seq<State>, n: nat, a: nat)
    requires Run(states) && n < |states| && a < |states[n].store.rows|
    ensures var versions := states[n].store.rows[a].versions;
            && (forall k :: 0 <= k < |versions| ==> versions[k].number == k + 1)
            && (forall c :: c in states[n].calls && c.artifact == a && c.pc.Insert? ==> c.pc.number == |versions| + 1)
  {
    RunKeeps(states, n);
    forall c | c in states[n].calls && c.artifact == a && c.pc.Insert?
      ensures c.pc.number == |states[n].store.rows[a].versions| + 1
    {
      InPipeline(states[n].store, c);
    }
  }

  /** A ready or out-of-date artifact points at its highest-numbered version. */
  lemma ReadyPointsAtNewest(states: seq<State>, n: nat, a: nat)
    requires Run(states) && n < |states| && a < |states[n].store.rows|
    requires Settled(states[n].store.rows[a].status)
    ensures var row := states[n].store.rows[a];
            && row.current.Some? && FindId(row.versions, row.current.value) == |row.versions| - 1
            && forall k :: 0 <= k < |row.versions| ==>
                 row.versions[k].number <= row.versions[|row.versions| - 1].number == MaxNumber(row.versions)
  {
    RunKeeps(states, n);
    var row := states[n].store.rows[a];
    MaxIsLast(row.versions);
  }

  /** The manifests a manifest descends from, itself first. */
  function Ancestors(manifests: seq<Manifest>, m: nat): (chain: seq<nat>)
    ensures |chain| > 0 && chain[0] == m
    decreases m
  {
    if m < |manifests| && manifests[m].parent.Some? && manifests[m].parent.value < m
    then [m] + Ancestors(manifests, manifests[m].parent.value)
    else [m]
  }

  lemma HasManifestLater(versions: seq<Version>, j: nat, k: nat, m: nat)
    requires j <= k <= |versions| && HasManifest(versions[..j], m)
    ensures HasManifest(versions[..k], m)
  {
    var y :| 0 <= y < j && versions[..j][y].manifest == m;
    assert versions[..k][y].manifest == m;
  }

  /** The parent of a version's manifest is the manifest of an earlier version. */
  lemma ParentVersion(st: Store, versions: seq<Version>, k: nat) returns (j: nat)
    requires LineageOk(st, versions) && k < |versions| && st.manifests[versions[k].manifest].parent.Some?
    ensures j < k && st.manifests[versions[k].manifest].parent == Some(versions[j].manifest)
    ensures versions[j].manifest < versions[k].manifest < |st.manifests|
  {
    assert ParentOk(versions[..k], st.manifests[versions[k].manifest].parent);
    j :| 0 <= j < k && versions[..k][j].manifest == st.manifests[versions[k].manifest].parent.value;
  }

  ghost predicate ChainWithin(versions: seq<Version>, chain: seq<nat>) {
    forall x :: 0 <= x < |chain| ==> HasManifest(versions, chain[x])
  }

  lemma ChainPush(versions: seq<Version>, j: nat, k: nat, rest: seq<nat>)
    requires j < k < |versions| && ChainWithin(versions[..j + 1], rest)
    ensures ChainWithin(versions[..k + 1], [versions[k].manifest] + rest)
  {
    assert versions[..k + 1][k].manifest == versions[k].manifest;
    forall x | 0 <= x < |rest| ensures HasManifest(versions[..k + 1], rest[x]) {
      HasManifestLater(versions, j + 1, k + 1, rest[x]);
    }
  }

  /** A lineage chain stays within the earlier versions of its artifact, and ends. */
  lemma {:induction false} LineageEnds(st: Store, versions: seq<Version>, k: nat)
    requires LineageOk(st, versions) && k < |versions|
    ensures var chain := Ancestors(st.manifests, versions[k].manifest);
            && ChainWithin(versions[..k + 1], chain)
            && chain[|chain| - 1] < |st.manifests|
            && st.manifests[chain[|chain| - 1]].parent.None?
    decreases k
  {
    var m := versions[k].manifest;
    if st.manifests[m].parent.Some? {
      var j := ParentVersion(st, versions, k);
      LineageEnds(st, versions, j);
      ChainPush(versions, j, k, Ancestors(st.manifests, versions[j].manifest));
    } else {
      assert versions[..k + 1][k].manifest == m;
    }
  }

  lemma LineageOfRun(states: seq<State>, n: nat, a: nat, k: nat)
    requires Run(states) && n < |states| && a < |states[n].store.rows| && k < |states[n].store.rows[a].versions|
    ensures var st := states[n].store; var versions := st.rows[a].versions;
            var chain := Ancestors(st.manifests, versions[k].manifest);
            && (forall x :: 0 <= x < |chain| ==> HasManifest(versions[..k + 1], chain[x]))
            && chain[|chain| - 1] < |st.manifests|
            && st.manifests[chain[|chain| - 1]].parent.None?
  {
    RunKeeps(states, n);
    LineageEnds(states[n].store, states[n].store.rows[a].versions, k);
  }

  // --------------------------------------------------------- published numbers

  /** The number of the version a call has added, while it publishes it and once it has reported it. */
  function Added(pc: Pc): Option<int> {
    match pc
    case ToReady(_, number) => Some(number)
    case Done(outcome) => if outcome.Published? then Some(outcome.number) else None
    case _ => None
  }

  ghost predicate AddedOk(s: State, i: nat)
    requires i < |s.calls|
  {
    Added(s.calls[i].pc).Some? ==>
      && s.calls[i].artifact < |s.store.rows|
      && 1 <= Added(s.calls[i].pc).value <= |s.store.rows[s.calls[i].artifact].versions|
  }

  ghost predicate AddedApart(s: State, i: nat, j: nat)
    requires i < |s.calls| && j < |s.calls|
  {
    i != j && s.calls[i].artifact == s.calls[j].artifact && Added(s.calls[i].pc).Some? ==>
      Added(s.calls[i].pc) != Added(s.calls[j].pc)
  }

  ghost predicate EachAddsItsOwn(s: State) {
    && (forall i: nat :: i < |s.calls| ==> AddedOk(s, i))
    && (forall i: nat, j: nat :: i < |s.calls| && j < |s.calls| ==> AddedApart(s, i, j))
  }

  /** A step gives a call a number only when it inserts the next version. */
  lemma OwnAdded(st: Store, c: Call)
    requires CanStep(st, c) && CallOk(st, c) && Added(StepCall(st, c).1).Some?
    ensures c.artifact < |st.rows|
    ensures || Added(StepCall(st, c).1) == Added(c.pc)
            || (Added(StepCall(st, c).1).value == |st.rows[c.artifact].versions| + 1
                == |StepCall(st, c).0.rows[c.artifact].versions|)
  {
    if Active(c.pc) { InPipeline(st, c); }
  }

  lemma AdvanceAdds(s: State, k: nat)
    requires Inv(s) && EachAddsItsOwn(s) && k < |s.calls| && CanStep(s.store, s.calls[k])
    ensures EachAddsItsOwn(Advance(s, k))
  {
    var c, s' := s.calls[k], Advance(s, k);
    StepExtends(s.store, c);
    assert CallOk(s.store, c);
    if Added(s'.calls[k].pc).Some? { OwnAdded(s.store, c); }
    forall i: nat | i < |s'.calls| ensures AddedOk(s', i) {
      assert AddedOk(s, i);
    }
    forall i: nat, j: nat | i < |s'.calls| && j < |s'.calls| ensures AddedApart(s', i, j) {
      assert AddedApart(s, i, j) && AddedOk(s, i) && AddedOk(s, j);
    }
  }

  lemma AddsKept(s: State, s': State)
    requires Inv(s) && EachAddsItsOwn(s) && Step(s, s')
    ensures EachAddsItsOwn(s')
  {
    if k: nat :| Advances(s, k, s') {
      AdvanceAdds(s, k);
    } else {
      forall i: nat | i < |s'.calls| ensures AddedOk(s', i) {
        assert i < |s.calls| ==> AddedOk(s, i);
      }
      forall i: nat, j: nat | i < |s'.calls| && j < |s'.calls| ensures AddedApart(s', i, j) {
        assert i < |s.calls| && j < |s.calls| ==> AddedApart(s, i, j);
      }
    }
  }

  lemma {:induction false} RunAdds(states: seq<State>, n: nat)
    requires Run(states) && n < |states|
    ensures EachAddsItsOwn(states[n])
  {
    if n > 0 {
      RunAdds(states, n - 1);
      RunKeeps(states, n - 1);
      assert StepAt(states, n);
      AddsKept(states[n - 1], states[n]);
    }
  }

  /** A reported number is that of a stored version, and no two calls on an artifact report the same one. */
  lemma PublishedOnce(states: seq<State>, n: nat, i: nat, j: nat, number: int)
    requires Run(states) && n < |states| && i < |states[n].calls| && j < |states[n].calls|
    requires states[n].calls[i].pc == Done(Published(number))
    ensures var a := states[n].calls[i].artifact;
            && a < |states[n].store.rows| && 1 <= number <= |states[n].store.rows[a].versions|
            && states[n].store.rows[a].versions[number - 1].number == number
            && (states[n].calls[j].artifact == a && states[n].calls[j].pc == Done(Published(number)) ==> i == j)
  {
    RunKeeps(states, n);
    RunAdds(states, n);
    assert AddedOk(states[n], i) && AddedApart(states[n], i, j);
    assert RowOk(states[n].store, states[n].store.rows[states[n].calls[i].artifact]);
  }

  // ------------------------------------------------- what a run does to a row

  /** The row has only gained versions, and the same revision means the same row. */
  predicate Evolves(row: Row, row': Row) {
    && row.versions <= row'.versions
    && row.revision <= row'.revision
    && (row.revision == row'.revision ==>
          row'.status == row.status && row'.current == row.current && row'.etag == row.etag)
  }

  lemma CasEvolves(st: Store, a: nat, expected: Status, target: Status, current: Option<nat>)
    requires a < |st.rows| && TransitionAllowed(expected, target)
    ensures var row, row' := st.rows[a], Cas(st, a, expected, target, current).rows[a];
            Evolves(row, row') && (row'.revision == row.revision || TransitionAllowed(row.status, row'.status))
  {
  }

  /** A call only ever swaps along an edge of the transition table. */
  lemma CasIsLegal(st: Store, c: Call)
    requires CallOk(st, c) && IsCas(c.pc)
    ensures TransitionAllowed(CasOf(c.pc).0, CasOf(c.pc).1)
  {
    if Active(c.pc) { InPipeline(st, c); }
  }

  /** A call that loses its swap changes nothing, and ends saying so, or goes on to mark the failure. */
  lemma LostSwap(st: Store, c: Call)
    requires CanStep(st, c) && IsCas(c.pc) && !CasWins(st, c.artifact, CasOf(c.pc).0)
    ensures StepCall(st, c).0 == st
    ensures c.pc.Claim? ==> StepCall(st, c).1 == Done(Conflict)
    ensures c.pc.CancelCas? || c.pc.StaleCas? ==> StepCall(st, c).1 == Done(LostCas)
    ensures c.pc.ToReady? ==> StepCall(st, c).1 == FailRead(LostCas)
    ensures c.pc.ToValidating? ==> StepCall(st, c).1 == Produce(c.pc.manifest)
    ensures c.pc.FailCas? ==> StepCall(st, c).1 == Done(c.pc.why)
  {
    CasSteps(st, c);
  }

  /** Every change of every row's status or revision follows an edge of the transition table. */
  lemma StatusFollowsTable(s: State, s': State, a: nat)
    requires Inv(s) && Step(s, s') && a < |s.store.rows|
    ensures a < |s'.store.rows| && Evolves(s.store.rows[a], s'.store.rows[a])
    ensures s'.store.rows[a].revision == s.store.rows[a].revision
            || TransitionAllowed(s.store.rows[a].status, s'.store.rows[a].status)
  {
    if i: nat :| Advances(s, i, s') {
      var c := s.calls[i];
      StepExtends(s.store, c);
      if c.artifact == a && IsCas(c.pc) {
        var (expected, target, current) := CasOf(c.pc);
        CasIsLegal(s.store, c);
        CasSteps(s.store, c);
        CasEvolves(s.store, a, expected, target, current);
      } else if c.artifact == a {
        OnlyCasMoves(s.store, c);
      }
    }
  }

  lemma OnlyCasMoves(st: Store, c: Call)
    requires CanStep(st, c) && !IsCas(c.pc) && c.artifact < |st.rows|
    ensures Evolves(st.rows[c.artifact], StepCall(st, c).0.rows[c.artifact])
    ensures StepCall(st, c).0.rows[c.artifact].revision == st.rows[c.artifact].revision
  {
  }

  lemma {:induction false} RowsEvolve(states: seq<State>, i: nat, j: nat, a: nat)
    requires Run(states) && i <= j < |states| && a < |states[i].store.rows|
    ensures a < |states[j].store.rows| && Evolves(states[i].store.rows[a], states[j].store.rows[a])
    decreases j
  {
    if i < j {
      RowsEvolve(states, i, j - 1, a);
      RunKeeps(states, j - 1);
      assert StepAt(states, j);
      StatusFollowsTable(states[j - 1], states[j], a);
      EvolvesTransitive(states[i].store.rows[a], states[j - 1].store.rows[a], states[j].store.rows[a]);
    }
  }

  /** Failed and cancelled are final, and no row becomes a draft again. */
  lemma {:induction false} FinalStays(states: seq<State>, i: nat, j: nat, a: nat)
    requires Run(states) && i <= j < |states| && a < |states[i].store.rows|
    ensures a < |states[j].store.rows|
    ensures var before, after := states[i].store.rows[a], states[j].store.rows[a];
            && (before.status.Failed? || before.status.Cancelled? ==>
                  after.status == before.status && after.current == before.current && after.etag == before.etag)
            && (!before.status.Draft? ==> !after.status.Draft?)
    decreases j
  {
    RowsEvolve(states, i, j, a);
    if i < j {
      FinalStays(states, i, j - 1, a);
      RunKeeps(states, j - 1);
      assert StepAt(states, j);
      StatusFollowsTable(states[j - 1], states[j], a);
    }
  }

  lemma EvolvesTransitive(r0: Row, r1: Row, r2: Row)
    requires Evolves(r0, r1) && Evolves(r1, r2)
    ensures Evolves(r0, r2)
  {
    assert forall k :: 0 <= k < |r0.versions| ==> r2.versions[k] == r0.versions[k];
  }

  /** Stored versions are never changed or removed, and an etag identifies the row it was read from. */
  lemma EtagIdentifiesRow(states: seq<State>, i: nat, j: nat, a: nat)
    requires Run(states) && i <= j < |states| && a < |states[i].store.rows|
    ensures a < |states[j].store.rows|
    ensures var before, after := states[i].store.rows[a], states[j].store.rows[a];
            && before.versions <= after.versions
            && before.etag == Decimal(before.revision)
            && (after.etag == before.etag <==> after.revision == before.revision)
            && (after.etag == before.etag ==> after.status == before.status && after.current == before.current)
  {
    RowsEvolve(states, i, j, a);
    RunKeeps(states, i);
    RunKeeps(states, j);
    var before, after := states[i].store.rows[a], states[j].store.rows[a];
    if after.etag == before.etag {
      DecimalInjective(after.revision, before.revision);
    }
  }

  /**
   An artifact in flight with no pipeline of its own was abandoned by an uncaught error: a missing
   base version, an exception of the recipe or of a store, or the end of the process.
   */
  lemma AbandonedExactlyByCrash(states: seq<State>, n: nat, a: nat)
    requires Run(states) && n < |states| && a < |states[n].store.rows|
    requires forall i :: 0 <= i < |states[n].calls| && states[n].calls[i].artifact == a ==>
             !Active(states[n].calls[i].pc)
    requires !states[n].store.rows[a].status.Cancelled?
    ensures var status := states[n].store.rows[a].status;
            (status.Generating? || status.Validating?) <==>
            exists i :: 0 <= i < |states[n].calls| && states[n].calls[i].artifact == a && Crashed(states[n].calls[i].pc)
  {
    RunKeeps(states, n);
    var s := states[n];
    if s.store.rows[a].status.Generating? || s.store.rows[a].status.Validating? {
      assert Owned(s, a);
    }
    if i :| 0 <= i < |s.calls| && s.calls[i].artifact == a && Crashed(s.calls[i].pc) {
      assert CrashOk(s, a);
    }
  }

  /** After such an error the row never changes again, except to be cancelled. */
  lemma CrashIsFinal(states: seq<State>, n: nat, i: nat)
    requires Run(states) && n + 1 < |states| && i < |states[n].calls| && Crashed(states[n].calls[i].pc)
    ensures var a := states[n].calls[i].artifact;
            && a < |states[n].store.rows| && a < |states[n + 1].store.rows|
            && var row, row' := states[n].store.rows[a], states[n + 1].store.rows[a];
               row' == row || (row'.status.Cancelled? && row'.versions == row.versions && row'.current == row.current)
  {
    RunKeeps(states, n);
    assert StepAt(states, n + 1);
    var s, s' := states[n], states[n + 1];
    var a := s.calls[i].artifact;
    assert CrashOk(s, a);
    if k: nat :| Advances(s, k, s') {
      var c := s.calls[k];
      StepExtends(s.store, c);
      if c.artifact == a { OutsidePipeline(s.store, c); }
    }
  }

  /** Regeneration from a number that was never published dies after its claim; any other goes on. */
  lemma MissingBaseStrands(states: seq<State>, n: nat, i: nat)
    requires Run(states) && n < |states| && i < |states[n].calls|
    requires states[n].calls[i].request.Regenerate? && states[n].calls[i].pc.Resolve?
    ensures var c := states[n].calls[i]; var st := states[n].store;
            && c.artifact < |st.rows|
            && (StepCall(st, c).1 == Done(MissingBase) <==>
                !(1 <= c.request.number <= |st.rows[c.artifact].versions|))
            && StepCall(st, c).0 == st
  {
    RunKeeps(states, n);
    var c, st := states[n].calls[i], states[n].store;
    InPipeline(st, c);
    var versions := st.rows[c.artifact].versions;
    assert NumbersOk(versions);
    var k := FindNumber(versions, c.request.number);
    if 1 <= c.request.number <= |versions| {
      assert versions[c.request.number - 1].number == c.request.number;
    }
  }

  // --------------------------------------------------- which calls strand a row

  /** The request names a base that is not among the `published` versions of the artifact. */
  predicate MissesBase(request: Request, published: nat) {
    match request
    case Generate(base) => base.Some? && !(1 <= base.value <= published)
    case Regenerate(number) => !(1 <= number <= published)
    case _ => false
  }

  /** What a call claimed on `published` versions has been through, from where it is. */
  ghost predicate OnCourse(st: Store, c: Call, published: nat) {
    match c.pc
    case Resolve(_) => c.artifact < |st.rows| && |st.rows[c.artifact].versions| == published
    case Freeze(_, _) => !MissesBase(c.request, published)
    case ToValidating(_) => !MissesBase(c.request, published)
    case Produce(_) => !MissesBase(c.request, published)
    case Done(outcome) =>
      Crashed(c.pc) <==> outcome.Died? || MissesBase(c.request, published) || c.recipe.Raises?
    case _ => Active(c.pc) && !MissesBase(c.request, published) && !c.recipe.Raises?
  }

  lemma {:induction false} FindNumberAt(versions: seq<Version>, number: int)
    requires NumbersOk(versions)
    ensures FindNumber(versions, number) < |versions| <==> 1 <= number <= |versions|
  {
    if 1 <= number <= |versions| {
      assert versions[number - 1].number == number;
    }
  }

  lemma OwnCourse(st: Store, c: Call, published: nat)
    requires CanStep(st, c) && CallOk(st, c) && Active(c.pc) && OnCourse(st, c, published)
    requires c.artifact < |st.rows| && RowOk(st, st.rows[c.artifact])
    ensures OnCourse(StepCall(st, c).0, c.(pc := StepCall(st, c).1), published)
  {
    InPipeline(st, c);
    if c.pc.Resolve? && c.pc.base.Some? {
      FindNumberAt(st.rows[c.artifact].versions, c.pc.base.value);
    }
  }

  /** Nobody else adds a version while a call is in its pipeline. */
  lemma OtherCourse(st: Store, c: Call, d: Call, published: nat)
    requires CanStep(st, c) && CallOk(st, c) && OnCourse(st, d, published)
    requires Active(c.pc) && Active(d.pc) ==> c.artifact != d.artifact
    ensures OnCourse(StepCall(st, c).0, d, published)
  {
    StepExtends(st, c);
    if d.pc.Resolve? && c.artifact == d.artifact {
      OutsidePipeline(st, c);
    }
  }

  lemma AdvanceCourse(s: State, k: nat, i: nat, published: nat)
    requires Inv(s) && k < |s.calls| && CanStep(s.store, s.calls[k])
    requires i < |s.calls| && OnCourse(s.store, s.calls[i], published)
    ensures OnCourse(Advance(s, k).store, Advance(s, k).calls[i], published)
  {
    assert CallOk(s.store, s.calls[k]);
    if k == i {
      InPipeline(s.store, s.calls[i]);
      OwnCourse(s.store, s.calls[i], published);
    } else {
      OtherCourse(s.store, s.calls[k], s.calls[i], published);
    }
  }

  lemma CourseKept(s: State, s': State, i: nat, published: nat)
    requires Inv(s) && Step(s, s') && i < |s.calls| && OnCourse(s.store, s.calls[i], published)
    ensures i < |s'.calls| && SameCall(s.calls[i], s'.calls[i]) && OnCourse(s'.store, s'.calls[i], published)
  {
    if k: nat :| Advances(s, k, s') {
      AdvanceCourse(s, k, i, published);
    }
  }

  predicate SameCall(c: Call, d: Call) {
    d.artifact == c.artifact && d.request == c.request && d.recipe == c.recipe
  }

  /** The swap of a generate, edit or regenerate that wins. */
  ghost predicate Claims(s: State, i: nat, s': State) {
    && Advances(s, i, s') && s.calls[i].pc.Claim?
    && CasWins(s.store, s.calls[i].artifact, s.calls[i].pc.seen)
  }

  lemma {:induction false} CourseOfRun(states: seq<State>, m: nat, n: nat, i: nat)
    requires Run(states) && m < n < |states| && i < |states[m].calls| && Claims(states[m], i, states[m + 1])
    ensures i < |states[n].calls| && SameCall(states[m].calls[i], states[n].calls[i])
    ensures var published := |states[m].store.rows[states[m].calls[i].artifact].versions|;
            OnCourse(states[n].store, states[n].calls[i], published)
    decreases n
  {
    if n > m + 1 {
      CourseOfRun(states, m, n - 1, i);
      RunKeeps(states, n - 1);
      assert StepAt(states, n);
      CourseKept(states[n - 1], states[n], i, |states[m].store.rows[states[m].calls[i].artifact].versions|);
    }
  }

  /** Ended by an error with the artifact in flight, for good unless somebody cancels it. */
  ghost predicate Stranded(s: State, i: nat)
    requires i < |s.calls|
  {
    Crashed(s.calls[i].pc) && CrashOk(s, s.calls[i].artifact)
  }

  /**
   A call that won its claim and ended without dying has stranded its artifact if and only if its base
   was not published when it claimed, or its recipe raises; one that died has stranded it too.
   */
  lemma StrandsExactly(states: seq<State>, m: nat, n: nat, i: nat)
    requires Run(states) && m < n < |states| && i < |states[m].calls| && Claims(states[m], i, states[m + 1])
    requires i < |states[n].calls| && states[n].calls[i].pc.Done?
    ensures var c := states[m].calls[i];
            Stranded(states[n], i) <==>
            || states[n].calls[i].pc.outcome.Died?
            || MissesBase(c.request, |states[m].store.rows[c.artifact].versions|)
            || c.recipe.Raises?
  {
    CourseOfRun(states, m, n, i);
    RunKeeps(states, n);
  }

  /** A generate has no version to start from: any base it names is missing. */
  lemma FirstHasNoBase(states: seq<State>, m: nat, i: nat)
    requires Run(states) && m + 1 < |states| && i < |states[m].calls| && Claims(states[m], i, states[m + 1])
    requires states[m].calls[i].request.Generate?
    ensures var c := states[m].calls[i];
            MissesBase(c.request, |states[m].store.rows[c.artifact].versions|) <==> c.request.base.Some?
  {
    RunKeeps(states, m);
    assert RowOk(states[m].store, states[m].store.rows[states[m].calls[i].artifact]);
    assert CallOk(states[m].store, states[m].calls[i]);
  }

  // ------------------------------------------------------ uninterrupted calls

  /** A bound on the store operations a call still makes, whatever the others do. */
  function Left(pc: Pc): nat {
    match pc
    case Entry => 12
    case FindBase(_, _) => 11
    case Claim(_, _) => 10
    case Resolve(_) => 9
    case Freeze(_, _) => 8
    case ToValidating(_) => 7
    case Produce(_) => 6
    case Number(_, _) => 5
    case Insert(_, _, _) => 4
    case ToReady(_, _) => 3
    case FailRead(_) => 2
    case FailCas(_, _) => 1
    case CancelCas(_) => 1
    case StaleCas(_) => 1
    case Done(_) => 0
  }

  /** Every use case ends after at most twelve of its own steps in every interleaving. */
  lemma CallsEnd(st: Store, c: Call)
    requires CanStep(st, c)
    ensures Left(StepCall(st, c).1) < Left(c.pc) <= 12
  {
  }

  /** A call run to its end with nobody in between. */
  function Finish(st: Store, c: Call): (Store, Outcome)
    decreases Left(c.pc)
  {
    if c.pc.Done? then (st, c.pc.outcome)
    else if !CanStep(st, c) then (st, Absent)
    else
      var r := StepCall(st, c);
      CallsEnd(st, c);
      Finish(r.0, c.(pc := r.1))
  }

  /** One step of an uninterrupted call. */
  lemma FinishStep(st: Store, c: Call, st': Store, pc: Pc)
    requires CanStep(st, c) && StepCall(st, c) == (st', pc)
    ensures Finish(st, c) == Finish(st', c.(pc := pc))
    ensures pc.Done? ==> Finish(st, c) == (st', pc.outcome)
  {
  }

  /** The store after an uninterrupted pipeline on row `row`, already moved to generating. */
  function AfterPipeline(st: Store, c: Call, parent: Option<nat>, base: Option<int>): (Store, Outcome)
    requires c.artifact < |st.rows|
  {
    var row := st.rows[c.artifact];
    var frozen := st.(manifests := st.manifests + [Manifest(parent, base)]);
    match c.recipe
    case Produces(content) =>
      var number := MaxNumber(row.versions) + 1;
      (frozen.(minted := st.minted + 1,
               rows := st.rows[c.artifact := Row(Ready, Some(st.minted), row.revision + 2, Decimal(row.revision + 2),
                 row.versions + [Version(st.minted, number, |st.manifests|, content)])]),
       Published(number))
    case Reports =>
      (frozen.(rows := st.rows[c.artifact :=
         row.(status := Failed, revision := row.revision + 2, etag := Decimal(row.revision + 2))]), Problems)
    case _ =>
      (frozen.(rows := st.rows[c.artifact :=
         row.(status := Validating, revision := row.revision + 1, etag := Decimal(row.revision + 1))]), Raised)
  }

  /** The store when the recipe is asked for content: a manifest more and the row validating. */
  function AtProduce(st: Store, a: nat, parent: Option<nat>, base: Option<int>): Store {
    Cas(st.(manifests := st.manifests + [Manifest(parent, base)]), a, Generating, Validating, None)
  }

  lemma ReachesValidating(st: Store, c: Call, m: nat)
    requires c.artifact < |st.rows| && c.pc == ToValidating(m)
    ensures Finish(st, c) == Finish(Cas(st, c.artifact, Generating, Validating, None), c.(pc := Produce(m)))
  {
    CasSteps(st, c);
    FinishStep(st, c, StepCall(st, c).0, Produce(m));
  }

  lemma ReachesProduce(st: Store, c: Call, parent: Option<nat>, base: Option<int>)
    requires c.artifact < |st.rows| && st.rows[c.artifact].status.Generating? && c.pc == Freeze(parent, base)
    ensures Finish(st, c) == Finish(AtProduce(st, c.artifact, parent, base), c.(pc := Produce(|st.manifests|)))
  {
    var st1 := st.(manifests := st.manifests + [Manifest(parent, base)]);
    FinishStep(st, c, st1, ToValidating(|st.manifests|));
    ReachesValidating(st1, c.(pc := ToValidating(|st.manifests|)), |st.manifests|);
  }

  lemma PipelineAlone(st: Store, c: Call, parent: Option<nat>, base: Option<int>)
    requires c.artifact < |st.rows| && st.rows[c.artifact].status.Generating? && c.pc == Freeze(parent, base)
    ensures Finish(st, c) == AfterPipeline(st, c, parent, base)
  {
    ReachesProduce(st, c, parent, base);
    ProduceAlone(AtProduce(st, c.artifact, parent, base), c.(pc := Produce(|st.manifests|)));
    ProducedAfter(st, c, parent, base);
  }

  lemma ProducedAfter(st: Store, c: Call, parent: Option<nat>, base: Option<int>)
    requires c.artifact < |st.rows| && st.rows[c.artifact].status.Generating?
    ensures AfterProduce(AtProduce(st, c.artifact, parent, base), c.artifact, c.recipe, |st.manifests|)
            == AfterPipeline(st, c, parent, base)
  {
    var row := st.rows[c.artifact];
    var validating := AtProduce(st, c.artifact, parent, base).rows[c.artifact];
    match c.recipe
    case Produces(content) =>
      UpdateTwice(st.rows, c.artifact, validating,
                  Row(Ready, Some(st.minted), row.revision + 2, Decimal(row.revision + 2),
                      row.versions + [Version(st.minted, MaxNumber(row.versions) + 1, |st.manifests|, content)]));
    case Reports =>
      UpdateTwice(st.rows, c.artifact, validating,
                  row.(status := Failed, revision := row.revision + 2, etag := Decimal(row.revision + 2)));
    case _ =>
  }

  lemma UpdateTwice(rows: seq<Row>, a: nat, first: Row, second: Row)
    requires a < |rows|
    ensures rows[a := first][a := second] == rows[a := second]
  {
  }

  /** What the recipe's answer makes of a validating row. */
  function AfterProduce(st: Store, a: nat, recipe: Recipe, manifest: nat): (Store, Outcome)
    requires a < |st.rows|
  {
    var row := st.rows[a];
    match recipe
    case Produces(content) =>
      var number := MaxNumber(row.versions) + 1;
      (st.(minted := st.minted + 1,
           rows := st.rows[a := Row(Ready, Some(st.minted), row.revision + 1, Decimal(row.revision + 1),
             row.versions + [Version(st.minted, number, manifest, content)])]),
       Published(number))
    case Reports =>
      (st.(rows := st.rows[a := row.(status := Failed, revision := row.revision + 1,
                                     etag := Decimal(row.revision + 1))]), Problems)
    case _ => (st, Raised)
  }

  /** From a produced content to the published version, from problems to the failed status. */
  lemma ProduceAlone(st: Store, c: Call)
    requires c.artifact < |st.rows| && st.rows[c.artifact].status.Validating? && c.pc.Produce?
    ensures Finish(st, c) == AfterProduce(st, c.artifact, c.recipe, c.pc.manifest)
  {
    match c.recipe
    case Produces(content) => PublishAlone(st, c, content);
    case Reports =>
      assert Finish(st, c) == Finish(st, c.(pc := FailRead(Problems)));
      assert Finish(st, c.(pc := FailRead(Problems))) == Finish(st, c.(pc := FailCas(Problems, Validating)));
      var failed := Cas(st, c.artifact, Validating, Failed, None);
      assert StepCall(st, c.(pc := FailCas(Problems, Validating))) == (failed, Done(Problems));
      assert Finish(failed, c.(pc := Done(Problems))) == (failed, Problems);
    case _ =>
      assert Finish(st, c) == Finish(st, c.(pc := Done(Raised)));
  }

  /** The store with a version inserted, the row still validating. */
  function Inserted(st: Store, a: nat, number: int, manifest: nat, content: int): Store
    requires a < |st.rows|
  {
    var row := st.rows[a];
    st.(rows := st.rows[a := row.(versions := row.versions + [Version(st.minted, number, manifest, content)])],
        minted := st.minted + 1)
  }

  lemma InsertAlone(st: Store, c: Call, content: int)
    requires c.artifact < |st.rows| && c.pc.Produce? && c.recipe == Produces(content)
    ensures var number := MaxNumber(st.rows[c.artifact].versions) + 1;
            Finish(st, c) == Finish(Inserted(st, c.artifact, number, c.pc.manifest, content),
                                    c.(pc := ToReady(st.minted, number)))
  {
    var m, number := c.pc.manifest, MaxNumber(st.rows[c.artifact].versions) + 1;
    FinishStep(st, c, st, Number(m, content));
    FinishStep(st, c.(pc := Number(m, content)), st, Insert(m, content, number));
    FinishStep(st, c.(pc := Insert(m, content, number)), Inserted(st, c.artifact, number, m, content),
               ToReady(st.minted, number));
  }

  /** The end of a pipeline that wins its last swap. */
  function MadeReady(st: Store, a: nat, version: nat, number: int): (Store, Outcome)
    requires a < |st.rows|
  {
    var row := st.rows[a];
    (st.(rows := st.rows[a := Row(Ready, Some(version), row.revision + 1, Decimal(row.revision + 1), row.versions)]),
     Published(number))
  }

  lemma InsertedReady(st: Store, a: nat, manifest: nat, content: int)
    requires a < |st.rows|
    ensures var number := MaxNumber(st.rows[a].versions) + 1;
            MadeReady(Inserted(st, a, number, manifest, content), a, st.minted, number)
            == AfterProduce(st, a, Produces(content), manifest)
  {
    var row, number := st.rows[a], MaxNumber(st.rows[a].versions) + 1;
    var inserted := Inserted(st, a, number, manifest, content).rows[a];
    UpdateTwice(st.rows, a, inserted,
                Row(Ready, Some(st.minted), row.revision + 1, Decimal(row.revision + 1), inserted.versions));
  }

  lemma ReadyAlone(st: Store, c: Call, version: nat, number: int)
    requires c.artifact < |st.rows| && st.rows[c.artifact].status.Validating? && c.pc == ToReady(version, number)
    ensures Finish(st, c) == MadeReady(st, c.artifact, version, number)
  {
    CasSteps(st, c);
    FinishStep(st, c, StepCall(st, c).0, Done(Published(number)));
  }

  lemma PublishAlone(st: Store, c: Call, content: int)
    requires c.artifact < |st.rows| && st.rows[c.artifact].status.Validating? && c.pc.Produce?
    requires c.recipe == Produces(content)
    ensures Finish(st, c) == AfterProduce(st, c.artifact, Produces(content), c.pc.manifest)
  {
    var m, number := c.pc.manifest, MaxNumber(st.rows[c.artifact].versions) + 1;
    InsertAlone(st, c, content);
    ReadyAlone(Inserted(st, c.artifact, number, m, content), c.(pc := ToReady(st.minted, number)), st.minted, number);
    InsertedReady(st, c.artifact, m, content);
  }

  /**
   An uninterrupted regenerate from a number that was never published fails after its claim, and what
   it leaves is the artifact generating.
   */
  lemma MissingBaseAlone(st: Store, c: Call)
    requires c.artifact < |st.rows| && RowOk(st, st.rows[c.artifact]) && Settled(st.rows[c.artifact].status)
    requires c.pc.Entry? && c.request.Regenerate? && !c.recipe.Refuses?
    requires MissesBase(c.request, |st.rows[c.artifact].versions|)
    ensures Finish(st, c).1 == MissingBase
    ensures Finish(st, c).0 == Cas(st, c.artifact, st.rows[c.artifact].status, Generating, None)
    ensures Finish(st, c).0.rows[c.artifact].status.Generating?
  {
    var row, number := st.rows[c.artifact], c.request.number;
    var claimed := Cas(st, c.artifact, row.status, Generating, None);
    FinishStep(st, c, st, Claim(row.status, Some(number)));
    FinishStep(st, c.(pc := Claim(row.status, Some(number))), claimed, Resolve(Some(number)));
    FindNumberAt(row.versions, number);
    FinishStep(claimed, c.(pc := Resolve(Some(number))), claimed, Done(MissingBase));
  }

  // ---------------------------------------------------- the use cases from end to end

  /** From a won claim to the frozen manifest, with the base's own manifest as the parent. */
  lemma ClaimFreezes(st: Store, c: Call, seen: Status, base: Option<int>, parent: Option<nat>)
    requires CasWins(st, c.artifact, seen) && c.pc == Claim(seen, base)
    requires base.None? ==> parent.None?
    requires base.Some? ==> var versions := st.rows[c.artifact].versions; var k := FindNumber(versions, base.value);
                            k < |versions| && parent == Some(versions[k].manifest)
    ensures Finish(st, c)
            == AfterPipeline(Cas(st, c.artifact, seen, Generating, None), c.(pc := Freeze(parent, base)), parent, base)
  {
    var claimed := Cas(st, c.artifact, seen, Generating, None);
    FinishStep(st, c, claimed, Resolve(base));
    FinishStep(claimed, c.(pc := Resolve(base)), claimed, Freeze(parent, base));
    PipelineAlone(claimed, c.(pc := Freeze(parent, base)), parent, base);
  }

  /** What a pipeline makes of the row it claimed, for each thing its recipe can do. */
  predicate PipelineLeft(row: Row, recipe: Recipe, id: nat, manifest: nat, row': Row, outcome: Outcome) {
    match recipe
    case Produces(content) =>
      && outcome == Published(|row.versions| + 1)
      && row' == Row(Ready, Some(id), row.revision + 3, Decimal(row.revision + 3),
                     row.versions + [Version(id, |row.versions| + 1, manifest, content)])
    case Reports =>
      && outcome == Problems
      && row' == Row(Failed, row.current, row.revision + 3, Decimal(row.revision + 3), row.versions)
    case Raises =>
      && outcome == Raised
      && row' == Row(Validating, row.current, row.revision + 2, Decimal(row.revision + 2), row.versions)
    case Refuses => false
  }

  /** The store and outcome of a claimed call: one more manifest, its row, and a version id if it published. */
  predicate CallLeaves(st: Store, a: nat, recipe: Recipe, parent: Option<nat>, base: Option<int>, end: (Store, Outcome))
    requires a < |st.rows|
  {
    && end.0.manifests == st.manifests + [Manifest(parent, base)]
    && end.0.minted == st.minted + (if recipe.Produces? then 1 else 0)
    && |end.0.rows| == |st.rows| && end.0.rows == st.rows[a := end.0.rows[a]]
    && PipelineLeft(st.rows[a], recipe, st.minted, |st.manifests|, end.0.rows[a], end.1)
  }

  /** The store with the next version published on a row, and the row ready at the next etag but two. */
  function WithVersion(st: Store, a: nat, content: int, parent: Option<nat>, base: Option<int>): (Store, Outcome)
    requires a < |st.rows|
  {
    var row, next := st.rows[a], |st.rows[a].versions| + 1;
    (Store(st.rows[a := Row(Ready, Some(st.minted), row.revision + 3, Decimal(row.revision + 3),
             row.versions + [Version(st.minted, next, |st.manifests|, content)])],
           st.manifests + [Manifest(parent, base)], st.minted + 1),
     Published(next))
  }

  lemma LeftPublishes(st: Store, a: nat, content: int, parent: Option<nat>, base: Option<int>, end: (Store, Outcome))
    requires a < |st.rows| && CallLeaves(st, a, Produces(content), parent, base, end)
    ensures end == WithVersion(st, a, content, parent, base)
  {
  }

  lemma EtagMoves(revision: nat)
    ensures Decimal(revision + 3) != Decimal(revision)
  {
    if Decimal(revision + 3) == Decimal(revision) { DecimalInjective(revision + 3, revision); }
  }

  lemma ClaimedLeaves(st: Store, c: Call, parent: Option<nat>, base: Option<int>)
    requires c.artifact < |st.rows| && NumbersOk(st.rows[c.artifact].versions) && !c.recipe.Refuses?
    ensures var claimed := Cas(st, c.artifact, st.rows[c.artifact].status, Generating, None);
            CallLeaves(st, c.artifact, c.recipe, parent, base, AfterPipeline(claimed, c, parent, base))
  {
    var row := st.rows[c.artifact];
    MaxIsLast(row.versions);
  }

  /** A row a call enters: the artifact exists and its row is sound. */
  ghost predicate Enters(st: Store, c: Call) {
    c.artifact < |st.rows| && RowOk(st, st.rows[c.artifact]) && c.pc.Entry?
  }

  lemma AbsentAlone(st: Store, c: Call)
    requires c.artifact >= |st.rows| && c.pc.Entry?
    ensures Finish(st, c) == (st, Absent)
  {
    FinishStep(st, c, st, Done(Absent));
  }

  /** An uninterrupted generate of a draft runs its pipeline on a manifest without parent. */
  lemma GenerateRuns(st: Store, c: Call)
    requires Enters(st, c) && st.rows[c.artifact].status.Draft? && !c.recipe.Refuses?
    requires c.request == Request.Generate(None)
    ensures CallLeaves(st, c.artifact, c.recipe, None, None, Finish(st, c))
  {
    FinishStep(st, c, st, Claim(Draft, None));
    ClaimFreezes(st, c.(pc := Claim(Draft, None)), Draft, None, None);
    ClaimedLeaves(st, c.(pc := Freeze(None, None)), None, None);
  }

  /**
   An uninterrupted generate of a draft publishes version 1, its manifest without a parent and its row
   ready with a new etag.
   */
  lemma GeneratePublishes(st: Store, c: Call, content: int)
    requires Enters(st, c) && st.rows[c.artifact].status.Draft?
    requires c.request == Request.Generate(None) && c.recipe == Produces(content)
    ensures Finish(st, c) == WithVersion(st, c.artifact, content, None, None)
    ensures Finish(st, c).1 == Published(1) && |Finish(st, c).0.rows[c.artifact].versions| == 1
    ensures Finish(st, c).0.rows[c.artifact].etag != st.rows[c.artifact].etag
  {
    GenerateRuns(st, c);
    LeftPublishes(st, c.artifact, content, None, None, Finish(st, c));
    EtagMoves(st.rows[c.artifact].revision);
  }

  /** A generate that names a base is left generating: a draft has no version. */
  lemma GenerateMissesBase(st: Store, c: Call)
    requires Enters(st, c) && st.rows[c.artifact].status.Draft? && !c.recipe.Refuses?
    requires c.request.Generate? && c.request.base.Some?
    ensures Finish(st, c).1 == MissingBase
    ensures Finish(st, c).0 == Cas(st, c.artifact, Draft, Generating, None)
  {
    var base, claimed := c.request.base, Cas(st, c.artifact, Draft, Generating, None);
    FinishStep(st, c, st, Claim(Draft, base));
    FinishStep(st, c.(pc := Claim(Draft, base)), claimed, Resolve(base));
    FindNumberAt(st.rows[c.artifact].versions, base.value);
    FinishStep(claimed, c.(pc := Resolve(base)), claimed, Done(MissingBase));
  }

  /** A generate is refused as a conflict exactly when the artifact is no draft, and then changes nothing. */
  lemma GenerateRefused(st: Store, c: Call)
    requires Enters(st, c) && c.request.Generate?
    ensures c.recipe.Refuses? ==> Finish(st, c) == (st, Invalid)
    ensures !c.recipe.Refuses? ==> (Finish(st, c).1 == Conflict <==> !st.rows[c.artifact].status.Draft?)
    ensures Finish(st, c).1 == Conflict ==> Finish(st, c).0 == st
  {
    if c.recipe.Refuses? {
      FinishStep(st, c, st, Done(Invalid));
    } else if !st.rows[c.artifact].status.Draft? {
      FinishStep(st, c, st, Done(Conflict));
    } else if c.request.base.Some? {
      GenerateMissesBase(st, c);
    } else {
      GenerateRuns(st, c);
    }
  }

  /** The base of an edit is the newest version, which the row points at. */
  lemma EditClaims(st: Store, c: Call)
    requires Enters(st, c) && c.request == Edit(st.rows[c.artifact].etag) && !c.recipe.Refuses?
    requires st.rows[c.artifact].status.Ready? || st.rows[c.artifact].status.OutOfDate?
    ensures var row := st.rows[c.artifact]; var n := |row.versions|;
            n > 0 && Finish(st, c) == Finish(st, c.(pc := Claim(row.status, Some(n))))
  {
    var row := st.rows[c.artifact];
    FinishStep(st, c, st, FindBase(row.status, row.current.value));
    FinishStep(st, c.(pc := FindBase(row.status, row.current.value)), st, Claim(row.status, Some(|row.versions|)));
  }

  /** An uninterrupted edit with the right etag runs its pipeline from the newest version. */
  lemma EditRuns(st: Store, c: Call)
    requires Enters(st, c) && c.request == Edit(st.rows[c.artifact].etag) && !c.recipe.Refuses?
    requires st.rows[c.artifact].status.Ready? || st.rows[c.artifact].status.OutOfDate?
    ensures var versions := st.rows[c.artifact].versions; var n := |versions|;
            n > 0 && CallLeaves(st, c.artifact, c.recipe, Some(versions[n - 1].manifest), Some(n), Finish(st, c))
  {
    var row := st.rows[c.artifact];
    var n := |row.versions|;
    var parent := Some(row.versions[n - 1].manifest);
    EditClaims(st, c);
    FindNumberAt(row.versions, n);
    ClaimFreezes(st, c.(pc := Claim(row.status, Some(n))), row.status, Some(n), parent);
    ClaimedLeaves(st, c.(pc := Freeze(parent, Some(n))), parent, Some(n));
  }

  /**
   An uninterrupted edit of a settled artifact presented with its etag publishes the next version
   from the manifest of the version it edits, keeps every prior one, and leaves a new etag.
   */
  lemma EditPublishes(st: Store, c: Call, content: int)
    requires c.artifact < |st.rows| && RowOk(st, st.rows[c.artifact]) && Settled(st.rows[c.artifact].status)
    requires c.pc.Entry? && c.recipe == Produces(content) && c.request == Edit(st.rows[c.artifact].etag)
    ensures var versions := st.rows[c.artifact].versions; var n := |versions|;
            n > 0 && Finish(st, c) == WithVersion(st, c.artifact, content, Some(versions[n - 1].manifest), Some(n))
    ensures Finish(st, c).0.rows[c.artifact].etag != st.rows[c.artifact].etag
  {
    var versions := st.rows[c.artifact].versions;
    var n := |versions|;
    EditRuns(st, c);
    LeftPublishes(st, c.artifact, content, Some(versions[n - 1].manifest), Some(n), Finish(st, c));
    EtagMoves(st.rows[c.artifact].revision);
  }

  /** An edit is a conflict exactly when its etag is another one, and not ready exactly in the other statuses. */
  lemma EditRefused(st: Store, c: Call)
    requires Enters(st, c) && c.request.Edit?
    ensures var row := st.rows[c.artifact]; var (st', outcome) := Finish(st, c);
            && (outcome == Conflict <==> c.request.etag != row.etag)
            && (outcome == NotReady <==>
                  c.request.etag == row.etag && !row.status.Ready? && !row.status.OutOfDate?)
            && (outcome == Conflict || outcome == NotReady || outcome == Invalid ==> st' == st)
            && (outcome == Invalid <==>
                  c.request.etag == row.etag && (row.status.Ready? || row.status.OutOfDate?) && c.recipe.Refuses?)
  {
    var row := st.rows[c.artifact];
    if row.etag != c.request.etag {
      FinishStep(st, c, st, Done(Conflict));
    } else if !row.status.Ready? && !row.status.OutOfDate? {
      FinishStep(st, c, st, Done(NotReady));
    } else if c.recipe.Refuses? {
      FinishStep(st, c, st, Done(Invalid));
    } else {
      EditRuns(st, c);
    }
  }

  /** An uninterrupted regenerate from a published number runs its pipeline from that version. */
  lemma RegenerateRuns(st: Store, c: Call)
    requires Enters(st, c) && c.request.Regenerate? && !c.recipe.Refuses?
    requires st.rows[c.artifact].status.Ready? || st.rows[c.artifact].status.OutOfDate?
    requires 1 <= c.request.number <= |st.rows[c.artifact].versions|
    ensures var versions, number := st.rows[c.artifact].versions, c.request.number;
            CallLeaves(st, c.artifact, c.recipe, Some(versions[number - 1].manifest), Some(number), Finish(st, c))
  {
    var row, number := st.rows[c.artifact], c.request.number;
    var parent := Some(row.versions[number - 1].manifest);
    FinishStep(st, c, st, Claim(row.status, Some(number)));
    FindNumberAt(row.versions, number);
    ClaimFreezes(st, c.(pc := Claim(row.status, Some(number))), row.status, Some(number), parent);
    ClaimedLeaves(st, c.(pc := Freeze(parent, Some(number))), parent, Some(number));
  }

  /**
   An uninterrupted regenerate from version `number` publishes version n+1, whose manifest descends from
   that version's, whichever it is, keeps every prior one, and leaves a new etag.
   */
  lemma RegeneratePublishes(st: Store, c: Call, content: int)
    requires Enters(st, c) && c.request.Regenerate? && c.recipe == Produces(content)
    requires st.rows[c.artifact].status.Ready? || st.rows[c.artifact].status.OutOfDate?
    requires 1 <= c.request.number <= |st.rows[c.artifact].versions|
    ensures var versions, number := st.rows[c.artifact].versions, c.request.number;
            Finish(st, c) == WithVersion(st, c.artifact, content, Some(versions[number - 1].manifest), Some(number))
    ensures Finish(st, c).0.rows[c.artifact].etag != st.rows[c.artifact].etag
  {
    var versions, number := st.rows[c.artifact].versions, c.request.number;
    RegenerateRuns(st, c);
    LeftPublishes(st, c.artifact, content, Some(versions[number - 1].manifest), Some(number), Finish(st, c));
    EtagMoves(st.rows[c.artifact].revision);
  }

  /** A regenerate is refused exactly outside ready and out-of-date, and misses its base exactly outside 1..n. */
  lemma RegenerateRefused(st: Store, c: Call)
    requires Enters(st, c) && c.request.Regenerate?
    ensures var row := st.rows[c.artifact]; var (st', outcome) := Finish(st, c);
            && (outcome == NotReady <==> !row.status.Ready? && !row.status.OutOfDate?)
            && (outcome == Invalid <==> (row.status.Ready? || row.status.OutOfDate?) && c.recipe.Refuses?)
            && (outcome == NotReady || outcome == Invalid ==> st' == st)
            && (outcome == MissingBase <==>
                  && (row.status.Ready? || row.status.OutOfDate?) && !c.recipe.Refuses?
                  && !(1 <= c.request.number <= |row.versions|))
  {
    var row := st.rows[c.artifact];
    if !row.status.Ready? && !row.status.OutOfDate? {
      FinishStep(st, c, st, Done(NotReady));
    } else if c.recipe.Refuses? {
      FinishStep(st, c, st, Done(Invalid));
    } else if 1 <= c.request.number <= |row.versions| {
      RegenerateRuns(st, c);
    } else {
      MissingBaseAlone(st, c);
    }
  }

  /** An uninterrupted cancel works exactly on a draft, generating or validating artifact. */
  lemma CancelAlone(st: Store, c: Call)
    requires Enters(st, c) && c.request.Cancel?
    ensures var row := st.rows[c.artifact];
            Finish(st, c) ==
            if row.status.Draft? || row.status.Generating? || row.status.Validating? then
              (st.(rows := st.rows[c.artifact :=
                 Row(Cancelled, row.current, row.revision + 1, Decimal(row.revision + 1), row.versions)]), Updated)
            else (st, NotReady)
  {
    var row := st.rows[c.artifact];
    if row.status.Draft? || row.status.Generating? || row.status.Validating? {
      FinishStep(st, c, st, CancelCas(row.status));
      var cancelled := Cas(st, c.artifact, row.status, Cancelled, None);
      FinishStep(st, c.(pc := CancelCas(row.status)), cancelled, Done(Updated));
    } else {
      FinishStep(st, c, st, Done(NotReady));
    }
  }

  /** An uninterrupted mark-out-of-date works exactly on a ready artifact. */
  lemma StaleAlone(st: Store, c: Call)
    requires Enters(st, c) && c.request.MarkOutOfDate?
    ensures var row := st.rows[c.artifact];
            Finish(st, c) ==
            if row.status.Ready? then
              (st.(rows := st.rows[c.artifact :=
                 Row(OutOfDate, row.current, row.revision + 1, Decimal(row.revision + 1), row.versions)]), Updated)
            else (st, NotReady)
  {
    var row := st.rows[c.artifact];
    if row.status.Ready? {
      FinishStep(st, c, st, StaleCas(Ready));
      var stale := Cas(st, c.artifact, Ready, OutOfDate, None);
      FinishStep(st, c.(pc := StaleCas(Ready)), stale, Done(Updated));
    } else {
      FinishStep(st, c, st, Done(NotReady));
    }
  }

  /**
   The etag of an edit is compared with an earlier read, and the swap that follows compares only the
   status: an edit that read the row is overtaken undetected by a complete edit in between.
   */
  lemma StaleEditIsAccepted(st: Store, slow: Call, quick: Call, content: int)
    requires CallOk(st, slow) && slow.pc.Claim? && slow.request.Edit?
    requires RowOk(st, st.rows[slow.artifact]) && st.rows[slow.artifact].status.Ready? && slow.pc.seen.Ready?
    requires slow.request.etag == st.rows[slow.artifact].etag
    requires quick == Call(slow.artifact, slow.request, Produces(content), Entry)
    ensures var st' := Finish(st, quick).0;
            && Finish(st, quick).1.Published?
            && slow.artifact < |st'.rows| && st'.rows[slow.artifact].etag != slow.request.etag
            && StepCall(st', slow).1 == Resolve(slow.pc.base)
            && slow.pc.base.value < |st'.rows[slow.artifact].versions|
  {
    EditPublishes(st, quick, content);
  }

  /** How a row can stand to the settled row `seen` it once was. */
  predicate Since(seen: Row, row: Row) {
    && seen.versions <= row.versions && seen.revision <= row.revision
    && (row.revision == seen.revision ==> row.status == seen.status && row.versions == seen.versions)
    && (row.revision > seen.revision && Settled(row.status) ==>
          |row.versions| > |seen.versions| || (seen.status.Ready? && row.status.OutOfDate?))
  }

  /** And who is about to publish on it has added a version to it. */
  ghost predicate SinceSeen(s: State, a: nat, seen: Row) {
    && a < |s.store.rows| && Since(seen, s.store.rows[a])
    && (forall k :: 0 <= k < |s.calls| && s.calls[k].artifact == a && s.calls[k].pc.ToReady? ==>
          |s.store.rows[a].versions| > |seen.versions|)
  }

  lemma CasSince(st: Store, c: Call, seen: Row)
    requires CanStep(st, c) && CallOk(st, c) && c.artifact < |st.rows| && IsCas(c.pc)
    requires Settled(seen.status) && Since(seen, st.rows[c.artifact])
    requires c.pc.ToReady? ==> |st.rows[c.artifact].versions| > |seen.versions|
    ensures Since(seen, StepCall(st, c).0.rows[c.artifact])
  {
    CasIsLegal(st, c);
    CasSteps(st, c);
  }

  lemma OwnSince(st: Store, c: Call, seen: Row)
    requires CanStep(st, c) && CallOk(st, c) && c.artifact < |st.rows|
    requires Settled(seen.status) && Since(seen, st.rows[c.artifact])
    requires c.pc.ToReady? ==> |st.rows[c.artifact].versions| > |seen.versions|
    ensures var row' := StepCall(st, c).0.rows[c.artifact];
            Since(seen, row') && (StepCall(st, c).1.ToReady? ==> |row'.versions| > |seen.versions|)
  {
    if IsCas(c.pc) {
      CasSince(st, c, seen);
    } else if Active(c.pc) {
      InPipeline(st, c);
    }
  }

  lemma AdvanceSince(s: State, i: nat, a: nat, seen: Row)
    requires Inv(s) && i < |s.calls| && CanStep(s.store, s.calls[i])
    requires Settled(seen.status) && SinceSeen(s, a, seen)
    ensures SinceSeen(Advance(s, i), a, seen)
  {
    assert CallOk(s.store, s.calls[i]);
    StepExtends(s.store, s.calls[i]);
    if s.calls[i].artifact == a { OwnSince(s.store, s.calls[i], seen); }
  }

  lemma SinceKept(s: State, s': State, a: nat, seen: Row)
    requires Inv(s) && Step(s, s') && Settled(seen.status) && SinceSeen(s, a, seen)
    ensures SinceSeen(s', a, seen)
  {
    if i: nat :| Advances(s, i, s') {
      AdvanceSince(s, i, a, seen);
    }
  }

  lemma SinceStarts(s: State, a: nat)
    requires Inv(s) && a < |s.store.rows| && Settled(s.store.rows[a].status)
    ensures SinceSeen(s, a, s.store.rows[a])
  {
    forall k | 0 <= k < |s.calls| && s.calls[k].artifact == a ensures !s.calls[k].pc.ToReady? {
      assert CallOk(s.store, s.calls[k]);
    }
  }

  lemma {:induction false} SinceOfRun(states: seq<State>, i: nat, j: nat, a: nat)
    requires Run(states) && i <= j < |states| && a < |states[i].store.rows|
    requires Settled(states[i].store.rows[a].status)
    ensures SinceSeen(states[j], a, states[i].store.rows[a])
    decreases j
  {
    RunKeeps(states, j);
    if i == j {
      SinceStarts(states[i], a);
    } else {
      SinceOfRun(states, i, j - 1, a);
      RunKeeps(states, j - 1);
      assert StepAt(states, j);
      SinceKept(states[j - 1], states[j], a, states[i].store.rows[a]);
    }
  }

  /**
   A swap that expects the status of an earlier read wins whenever the etag is unchanged. When it wins
   on a settled row, the etag is unchanged if and only if no version was published since that read.
   */
  lemma FreshEditIsAccepted(states: seq<State>, i: nat, j: nat, a: nat)
    requires Run(states) && i <= j < |states| && a < |states[i].store.rows|
    ensures a < |states[j].store.rows|
    ensures var before, after := states[i].store.rows[a], states[j].store.rows[a];
            && (after.etag == before.etag ==> CasWins(states[j].store, a, before.status))
            && (Settled(before.status) && CasWins(states[j].store, a, before.status) ==>
                  (after.etag == before.etag <==> after.versions == before.versions))
  {
    EtagIdentifiesRow(states, i, j, a);
    if Settled(states[i].store.rows[a].status) { SinceOfRun(states, i, j, a); }
  }

  /** The status a call read, while it remembers one. */
  predicate Remembers(pc: Pc, seen: Status) {
    (pc.FindBase? ==> pc.seen == seen) && (pc.Claim? ==> pc.seen == seen) && !pc.Entry?
  }

  lemma RememberKept(s: State, s': State, k: nat, seen: Status)
    requires Step(s, s') && k < |s.calls| && Remembers(s.calls[k].pc, seen)
    ensures k < |s'.calls| && SameCall(s.calls[k], s'.calls[k]) && Remembers(s'.calls[k].pc, seen)
  {
  }

  lemma {:induction false} RemembersSeen(states: seq<State>, i: nat, j: nat, k: nat, seen: Status)
    requires Run(states) && i <= j < |states| && k < |states[i].calls| && Remembers(states[i].calls[k].pc, seen)
    ensures k < |states[j].calls| && SameCall(states[i].calls[k], states[j].calls[k])
    ensures Remembers(states[j].calls[k].pc, seen)
    decreases j
  {
    if i < j {
      RemembersSeen(states, i, j - 1, k, seen);
      assert StepAt(states, j);
      RememberKept(states[j - 1], states[j], k, seen);
    }
  }

  /**
   An edit whose etag was the one it read, and whose swap wins later, was overtaken undetected if and
   only if another version was published between the read and the swap.
   */
  lemma OvertakenExactly(states: seq<State>, i: nat, j: nat, k: nat)
    requires Run(states) && i < j < |states| && k < |states[i].calls|
    requires states[i].calls[k].pc.Entry? && states[i].calls[k].request.Edit?
    requires Advances(states[i], k, states[i + 1]) && states[i + 1].calls[k].pc.FindBase?
    requires k < |states[j].calls| && states[j].calls[k].pc.Claim? && CanStep(states[j].store, states[j].calls[k])
    requires StepCall(states[j].store, states[j].calls[k]).1.Resolve?
    ensures var c := states[i].calls[k];
            && c.artifact < |states[i].store.rows| && c.artifact < |states[j].store.rows|
            && states[j].calls[k].artifact == c.artifact && states[j].calls[k].request == c.request
            && (states[j].store.rows[c.artifact].etag != c.request.etag <==>
                |states[j].store.rows[c.artifact].versions| > |states[i].store.rows[c.artifact].versions|)
  {
    var a := states[i].calls[k].artifact;
    RemembersSeen(states, i + 1, j, k, states[i].store.rows[a].status);
    FreshEditIsAccepted(states, i, j, a);
    RowsEvolve(states, i, j, a);
  }

  // ------------------------------------------------------------ the use cases

  /** _next_version_number: one past the highest published number. */
  method NextVersionNumber(existing: seq<Version>) returns (n: int)
    ensures n == MaxNumber(existing) + 1
    ensures NumbersOk(existing) ==> n == |existing| + 1
  {
    n := 0;
    for k := 0 to |existing|
      invariant n == MaxNumber(existing[..k])
    {
      assert existing[..k + 1][..k] == existing[..k];
      if k == 0 || existing[k].number > n { n := existing[k].number; }
    }
    assert existing[..|existing|] == existing;
    if NumbersOk(existing) { MaxIsLast(existing); }
    n := n + 1;
  }

  /** The artifact store: one transaction per method. */
  class ArtifactStore {
    var rows: seq<Row>
    var manifests: seq<Manifest>
    var minted: nat

    ghost function View(): Store
      reads this
    {
      Store(rows, manifests, minted)
    }

    constructor ()
      ensures View() == INIT.store
    {
      rows, manifests, minted := [], [], 0;
    }

    method CasStatus(a: nat, expected: Status, target: Status, current: Option<nat>) returns (won: bool)
      modifies this
      ensures View() == Cas(old(View()), a, expected, target, current)
      ensures won <==> CasWins(old(View()), a, expected)
    {
      won := a < |rows| && rows[a].status == expected;
      if won {
        var row := rows[a];
        var pointer := if current.Some? then current else row.current;
        rows := rows[a := Row(target, pointer, row.revision + 1, Decimal(row.revision + 1), row.versions)];
      }
    }

    method FreezeManifest(parent: Option<nat>, base: Option<int>) returns (id: nat)
      modifies this
      ensures id == |old(manifests)|
      ensures View() == old(View()).(manifests := old(manifests) + [Manifest(parent, base)])
    {
      id := |manifests|;
      manifests := manifests + [Manifest(parent, base)];
    }

    method GetVersion(a: nat, number: int) returns (version: Option<Version>)
      requires a < |rows|
      ensures version.None? <==> forall v :: v in rows[a].versions ==> v.number != number
      ensures version.Some? ==>
                && version.value == rows[a].versions[FindNumber(rows[a].versions, number)]
                && version.value.number == number
    {
      var versions := rows[a].versions;
      for k := 0 to |versions|
        invariant forall j :: 0 <= j < k ==> versions[j].number != number
      {
        if versions[k].number == number { return Some(versions[k]); }
      }
      version := None;
    }

    method CreateVersion(a: nat, number: int, manifest: nat, content: int) returns (id: nat)
      requires a < |rows|
      modifies this
      ensures id == old(minted)
      ensures View() == old(View()).(minted := id + 1, rows := old(rows)[a := old(rows[a]).(versions :=
                          old(rows[a]).versions + [Version(id, number, manifest, content)])])
    {
      id := minted;
      var row := rows[a];
      rows := rows[a := row.(versions := row.versions + [Version(id, number, manifest, content)])];
      minted := minted + 1;
    }

    /** _mark_failed. */
    method MarkFailed(a: nat)
      requires a < |rows|
      modifies this
      ensures var row := old(rows[a]);
              View() == if row.status.Generating? || row.status.Validating?
                        then old(View()).(rows := old(rows)[a :=
                               Row(Failed, row.current, row.revision + 1, Decimal(row.revision + 1), row.versions)])
                        else old(View())
    {
      var seen := rows[a].status;
      if TransitionAllowed(seen, Failed) {
        var _ := CasStatus(a, seen, Failed, None);
      }
    }

    /** From the recipe's outcome to the published version or the failed status, after validating. */
    method Complete(a: nat, recipe: Recipe, manifest: nat, ghost request: Request) returns (outcome: Outcome)
      requires a < |rows| && rows[a].status.Validating?
      modifies this
      ensures (View(), outcome) == Finish(old(View()), Call(a, request, recipe, Produce(manifest)))
    {
      ProduceAlone(View(), Call(a, request, recipe, Produce(manifest)));
      match recipe {
      case Produces(content) =>
        var number := NextVersionNumber(rows[a].versions);
        var id := CreateVersion(a, number, manifest, content);
        ghost var inserted := rows[a];
        var won := CasStatus(a, Validating, Ready, Some(id));
        UpdateTwice(old(rows), a, inserted, rows[a]);
        outcome := Published(number);
      case Reports =>
        MarkFailed(a);
        outcome := Problems;
      case _ =>
        outcome := Raised;
      }
    }

    /** _resolve_parent: the manifest of the pinned base; `found` is false when that version is missing. */
    method ResolveParent(a: nat, base: Option<int>) returns (found: bool, parent: Option<nat>)
      requires a < |rows|
      ensures found <==> base.None? || FindNumber(rows[a].versions, base.value) < |rows[a].versions|
      ensures found && base.Some? ==>
                parent == Some(rows[a].versions[FindNumber(rows[a].versions, base.value)].manifest)
      ensures base.None? ==> parent.None?
    {
      if base.None? { return true, None; }
      var version := GetVersion(a, base.value);
      found := version.Some?;
      parent := if found then Some(version.value.manifest) else None;
    }

    /** _GenerationPipeline.run with the caller's handlers, after a won claim. */
    method RunPipeline(a: nat, recipe: Recipe, base: Option<int>, ghost request: Request) returns (outcome: Outcome)
      requires a < |rows| && rows[a].status.Generating?
      modifies this
      ensures (View(), outcome) == Finish(old(View()), Call(a, request, recipe, Resolve(base)))
    {
      ghost var c := Call(a, request, recipe, Resolve(base));
      var found, parent := ResolveParent(a, base);
      if !found {
        FinishStep(View(), c, View(), Done(MissingBase));
        return MissingBase;
      }
      ghost var st := View();
      FinishStep(st, c, st, Freeze(parent, base));
      var manifest := FreezeManifest(parent, base);
      ghost var frozen := View();
      FinishStep(st, c.(pc := Freeze(parent, base)), frozen, ToValidating(manifest));
      var _ := CasStatus(a, Generating, Validating, None);
      FinishStep(frozen, c.(pc := ToValidating(manifest)), View(), Produce(manifest));
      outcome := Complete(a, recipe, manifest, request);
    }

    method Generate(a: nat, base: Option<int>, recipe: Recipe) returns (outcome: Outcome)
      modifies this
      ensures (View(), outcome) == Finish(old(View()), Call(a, Request.Generate(base), recipe, Entry))
    {
      ghost var c := Call(a, Request.Generate(base), recipe, Entry);
      if a >= |rows| { return Absent; }
      if recipe.Refuses? { return Invalid; }
      if !rows[a].status.Draft? { return Conflict; }
      ghost var st := View();
      FinishStep(st, c, st, Claim(Draft, base));
      var won := CasStatus(a, Draft, Generating, None);
      FinishStep(st, c.(pc := Claim(Draft, base)), View(), Resolve(base));
      outcome := RunPipeline(a, recipe, base, Request.Generate(base));
    }

    method Edit(a: nat, expected: string, recipe: Recipe) returns (outcome: Outcome)
      modifies this
      ensures (View(), outcome) == Finish(old(View()), Call(a, Request.Edit(expected), recipe, Entry))
    {
      ghost var c := Call(a, Request.Edit(expected), recipe, Entry);
      if a >= |rows| { return Absent; }
      if rows[a].etag != expected { return Conflict; }
      var seen := rows[a].status;
      if !seen.Ready? && !seen.OutOfDate? { return NotReady; }
      if recipe.Refuses? { return Invalid; }
      if rows[a].current.None? { return NotReady; }
      ghost var st := View();
      FinishStep(st, c, st, FindBase(seen, rows[a].current.value));
      var k := FindId(rows[a].versions, rows[a].current.value);
      var base := if k < |rows[a].versions| then Some(rows[a].versions[k].number) else None;
      FinishStep(st, c.(pc := FindBase(seen, rows[a].current.value)), st, Claim(seen, base));
      var won := CasStatus(a, seen, Generating, None);
      FinishStep(st, c.(pc := Claim(seen, base)), View(), Resolve(base));
      outcome := RunPipeline(a, recipe, base, Request.Edit(expected));
    }

    method Regenerate(a: nat, number: int, recipe: Recipe) returns (outcome: Outcome)
      modifies this
      ensures (View(), outcome) == Finish(old(View()), Call(a, Request.Regenerate(number), recipe, Entry))
    {
      ghost var c := Call(a, Request.Regenerate(number), recipe, Entry);
      if a >= |rows| { return Absent; }
      var seen := rows[a].status;
      if !seen.Ready? && !seen.OutOfDate? { return NotReady; }
      if recipe.Refuses? { return Invalid; }
      ghost var st := View();
      FinishStep(st, c, st, Claim(seen, Some(number)));
      var won := CasStatus(a, seen, Generating, None);
      FinishStep(st, c.(pc := Claim(seen, Some(number))), View(), Resolve(Some(number)));
      outcome := RunPipeline(a, recipe, Some(number), Request.Regenerate(number));
    }

    method CancelArtifact(a: nat) returns (outcome: Outcome)
      modifies this
      ensures (View(), outcome) == Finish(old(View()), Call(a, Cancel, Reports, Entry))
    {
      ghost var c := Call(a, Cancel, Reports, Entry);
      if a >= |rows| { return Absent; }
      var seen := rows[a].status;
      if !TransitionAllowed(seen, Cancelled) { return NotReady; }
      ghost var st := View();
      FinishStep(st, c, st, CancelCas(seen));
      var won := CasStatus(a, seen, Cancelled, None);
      outcome := if won then Updated else LostCas;
      FinishStep(st, c.(pc := CancelCas(seen)), View(), Done(outcome));
    }

    method MarkStale(a: nat) returns (outcome: Outcome)
      modifies this
      ensures (View(), outcome) == Finish(old(View()), Call(a, MarkOutOfDate, Reports, Entry))
    {
      ghost var c := Call(a, MarkOutOfDate, Reports, Entry);
      if a >= |rows| { return Absent; }
      var seen := rows[a].status;
      if !TransitionAllowed(seen, OutOfDate) { return NotReady; }
      ghost var st := View();
      FinishStep(st, c, st, StaleCas(seen));
      var won := CasStatus(a, seen, OutOfDate, None);
      outcome := if won then Updated else LostCas;
      FinishStep(st, c.(pc := StaleCas(seen)), View(), Done(outcome));
    }
  }
}
