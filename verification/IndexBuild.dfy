/**
 The resumable build of an index generation: chunk rows and vectors are written one transaction at a
 time, a crash may stop a run between any two of them, and a later run continues from what is stored.
 */
module IndexBuild {
  import opened Common
  import opened CanonicalTree
  import opened Chunking

  datatype Status = Building | Ready | Superseded | Stale | Failed

  type Vector = seq<real>

  /** A generation row with its chunk rows; a chunk row has a vector once one is attached. */
  datatype Generation = Generation(version: nat, status: Status, rows: map<ChunkId, Option<Vector>>, count: nat)

  type Store = map<nat, Generation>

  datatype StoredDocument = StoredDocument(version: nat, content: Doc)

  /** One queued build. The document is absent when none is persisted under the job's document id. */
  datatype Job = Job(generation: nat, version: nat, document: Option<StoredDocument>, profile: Profile, batchSize: int)

  datatype Error = NoDocument | OtherVersion | BadProfile | ZeroBatch | EmbeddingFailed

  datatype Outcome = Done(count: nat) | Raised(error: Error) | Crashed

  /** The embedding provider: fails, or returns vectors, not necessarily one for each text. */
  type Provider = seq<string> -> Option<seq<Vector>>

  // ------------------------------------------------------------------- writes

  /** The transactions of a build. */
  datatype Write =
    | Create(generation: nat, version: nat)
    | Insert(generation: nat, ids: seq<ChunkId>)
    | Embed(generation: nat, id: ChunkId, vector: Vector)
    | Swap(generation: nat, count: nat)
    | Fail(generation: nat)

  function InsertRows(rows: map<ChunkId, Option<Vector>>, ids: seq<ChunkId>): map<ChunkId, Option<Vector>> {
    map id | id in rows.Keys + (set i | i in ids) :: if id in rows then rows[id] else None
  }

  function SwapOne(h: nat, row: Generation, generation: nat, version: nat, count: nat): Generation {
    if h != generation then
      if row.version == version && row.status.Ready? then row.(status := Superseded) else row
    else if row.status.Building? then row.(status := Ready, count := count) else row
  }

  function Apply(store: Store, w: Write): Store {
    var g := w.generation;
    match w
    case Create(_, version) =>
      if g !in store then store[g := Generation(version, Building, map[], 0)]
      else if store[g].status.Failed? then store[g := store[g].(status := Building)]
      else store
    case Insert(_, ids) =>
      if g !in store then store else store[g := store[g].(rows := InsertRows(store[g].rows, ids))]
    case Embed(_, id, vector) =>
      if g !in store || id !in store[g].rows then store
      else store[g := store[g].(rows := store[g].rows[id := Some(vector)])]
    case Swap(_, count) =>
      if g !in store then store else map h | h in store :: SwapOne(h, store[h], g, store[g].version, count)
    case Fail(_) =>
      if g !in store then store else store[g := store[g].(status := Failed)]
  }

  function ApplyAll(store: Store, writes: seq<Write>): Store {
    if writes == [] then store else Apply(ApplyAll(store, writes[..|writes| - 1]), writes[|writes| - 1])
  }

  lemma {:induction false} ApplyAppend(store: Store, a: seq<Write>, b: seq<Write>)
    ensures ApplyAll(store, a + b) == ApplyAll(ApplyAll(store, a), b)
    decreases |b|
  {
    if b == [] {
      assert a + b == a;
    } else {
      var n := |b| - 1;
      assert (a + b)[..|a| + n] == a + b[..n];
      ApplyAppend(store, a, b[..n]);
    }
  }

  // ------------------------------------------------------------------- script

  function ChunkIds(chunks: seq<Chunk>): (r: seq<ChunkId>)
    ensures |r| == |chunks|
  {
    seq(|chunks|, i requires 0 <= i < |chunks| => chunks[i].id)
  }

  function TextsOf(chunks: seq<Chunk>): seq<string> {
    seq(|chunks|, i requires 0 <= i < |chunks| => chunks[i].draft.text)
  }

  /** The chunks that are not stored yet, in order. */
  function Pending(chunks: seq<Chunk>, existing: set<ChunkId>): seq<Chunk> {
    if chunks == [] then []
    else
      var rest := Pending(chunks[..|chunks| - 1], existing);
      var last := chunks[|chunks| - 1];
      if last.id in existing then rest else rest + [last]
  }

  function Smaller(a: nat, b: nat): nat { if a < b then a else b }

  /** One vector for each chunk as far as both go. */
  function EmbedWrites(g: nat, batch: seq<Chunk>, vectors: seq<Vector>): (r: seq<Write>)
    ensures |r| == Smaller(|batch|, |vectors|)
    ensures forall w :: w in r ==> w.Embed? && w.generation == g
  {
    seq(Smaller(|batch|, |vectors|), i requires 0 <= i < Smaller(|batch|, |vectors|) =>
        Embed(g, batch[i].id, vectors[i]))
  }

  /** One batch: its writes, and whether the loop goes on after them. */
  ghost function OneBatch(g: nat, batch: seq<Chunk>, embed: Provider): (r: (seq<Write>, bool))
    ensures forall w :: w in r.0 ==> w.Embed? && w.generation == g
  {
    var vectors := embed(TextsOf(batch));
    if vectors.None? then ([], false)
    else (EmbedWrites(g, batch, vectors.value), |vectors.value| == |batch|)
  }

  function BatchAt(pending: seq<Chunk>, start: nat, size: nat): seq<Chunk>
    requires start <= |pending|
  {
    pending[start..start + Smaller(size, |pending| - start)]
  }

  /** The embedding loop from a position on: its writes, and whether it reaches the end. */
  ghost function Batches(g: nat, pending: seq<Chunk>, start: nat, size: nat, embed: Provider): (r: (seq<Write>, bool))
    requires size >= 1
    ensures forall w :: w in r.0 ==> w.Embed? && w.generation == g
    decreases |pending| - start
  {
    if start >= |pending| then ([], true)
    else
      var here := OneBatch(g, BatchAt(pending, start, size), embed);
      if !here.1 then here
      else
        var rest := Batches(g, pending, start + size, size, embed);
        (here.0 + rest.0, rest.1)
  }

  ghost predicate JobOk(job: Job) { job.document.Some? ==> WellFormed(job.document.value.content) }

  /** The job has a document of its own source version and a usable profile. */
  predicate Buildable(job: Job) {
    job.document.Some? && job.document.value.version == job.version && job.profile.maxTokens >= 1
  }

  ghost function ChunksOf(job: Job): (r: seq<Chunk>)
    requires JobOk(job) && Buildable(job)
    ensures DistinctChunkIds(r)
  {
    var doc := job.document.value.content;
    var units := WalkRoots(doc, doc.roots);
    var budget: nat := job.profile.maxTokens;
    WalkUnitsWhole(doc);
    PlanIsValid(units, budget);
    KeysDistinct(Plan(units, budget), budget);
    Linked(Drafts(Plan(units, budget), budget), job.profile.revision)
  }

  /** What a job comes to once its document is loaded: a refusal, or the chunks to build. */
  datatype Work = Work(generation: nat, version: nat, refused: Option<Error>, chunks: seq<Chunk>, batchSize: int)

  ghost function WorkOf(job: Job): Work
    requires JobOk(job)
  {
    Work(job.generation, job.version,
         if job.document.None? then Some(NoDocument)
         else if job.document.value.version != job.version then Some(OtherVersion)
         else if job.profile.maxTokens < 1 then Some(BadProfile)
         else None,
         if Buildable(job) then ChunksOf(job) else [], job.batchSize)
  }

  function Rows(store: Store, g: nat): map<ChunkId, Option<Vector>> { if g in store then store[g].rows else map[] }

  function CreateWrites(store: Store, g: nat, version: nat): seq<Write> {
    if g !in store || store[g].status.Failed? then [Create(g, version)] else []
  }

  function InsertWrites(g: nat, pending: seq<Chunk>): seq<Write> {
    if pending == [] then [] else [Insert(g, ChunkIds(pending))]
  }

  ghost function EmbedPhase(g: nat, batchSize: int, pending: seq<Chunk>, embed: Provider): (r: (seq<Write>, bool))
    ensures forall w :: w in r.0 ==> w.Embed? && w.generation == g
  {
    if batchSize > 0 then Batches(g, pending, 0, batchSize, embed) else ([], true)
  }

  predicate AlreadyReady(store: Store, g: nat) { g in store && store[g].status.Ready? }

  /** What comes after the rows are stored. */
  ghost function Tail(g: nat, batchSize: int, chunks: seq<Chunk>, pending: seq<Chunk>,
                      embed: Provider): (seq<Write>, Outcome)
  {
    if batchSize == 0 then ([], Raised(ZeroBatch))
    else
      var (writes, fine) := EmbedPhase(g, batchSize, pending, embed);
      if fine then (writes + [Swap(g, |chunks|)], Done(|chunks|)) else (writes, Raised(EmbeddingFailed))
  }

  /** What comes after chunking: store what is missing, attach vectors, swap. */
  ghost function Body(g: nat, batchSize: int, chunks: seq<Chunk>, existing: set<ChunkId>,
                      embed: Provider): (seq<Write>, Outcome)
  {
    var pending := Pending(chunks, existing);
    var tail := Tail(g, batchSize, chunks, pending, embed);
    (InsertWrites(g, pending) + tail.0, tail.1)
  }

  /** The writes of an uninterrupted run, in order, and how it ends. */
  ghost function Script(store: Store, job: Work, embed: Provider): (seq<Write>, Outcome) {
    var g := job.generation;
    var create := CreateWrites(store, g, job.version);
    if AlreadyReady(store, g) then ([], Done(|store[g].rows|))
    else if job.refused.Some? then (create, Raised(job.refused.value))
    else
      var body := Body(g, job.batchSize, job.chunks, Rows(store, g).Keys, embed);
      (create + body.0, body.1)
  }

  /** A run that dies before its write number `cut`, or ends by itself when it has no more than that. */
  ghost function StoreAfter(store: Store, job: Work, embed: Provider, cut: nat): Store
  {
    var writes := Script(store, job, embed).0;
    ApplyAll(store, writes[..Smaller(cut, |writes|)])
  }

  ghost function OutcomeAfter(store: Store, job: Work, embed: Provider, cut: nat): Outcome
  {
    var script := Script(store, job, embed);
    if cut < |script.0| then Crashed else script.1
  }

  lemma InsertOne(rows: map<ChunkId, Option<Vector>>, ids: seq<ChunkId>, id: ChunkId)
    ensures var sofar := InsertRows(rows, ids);
            InsertRows(rows, ids + [id]) == if id in sofar then sofar else sofar[id := None]
  {
  }

  lemma RowsGrow(rows: map<ChunkId, Option<Vector>>, id: ChunkId)
    requires id !in rows
    ensures |rows[id := None]| == |rows| + 1
  {
    assert rows[id := None].Keys == rows.Keys + {id};
    assert |rows[id := None].Keys| == |rows.Keys| + 1;
  }

  /** `writes` were applied as far as `left` went: all of them when alive, and `after` is what remains. */
  ghost predicate Ran(store: Store, now: Store, writes: seq<Write>, left: nat, after: nat, alive: bool) {
    var n := Smaller(left, |writes|);
    now == ApplyAll(store, writes[..n]) && after == left - n && alive == (left >= |writes|)
  }

  lemma RanAppend(store: Store, mid: Store, now: Store, a: seq<Write>, b: seq<Write>,
                  left: nat, between: nat, after: nat, alive: bool)
    requires Ran(store, mid, a, left, between, true) && Ran(mid, now, b, between, after, alive)
    ensures Ran(store, now, a + b, left, after, alive)
  {
    var n := Smaller(between, |b|);
    ApplyAppend(store, a, b[..n]);
    assert a[..|a|] == a && (a + b)[..|a| + n] == a + b[..n];
  }

  lemma RanOne(store: Store, w: Write, left: nat)
    requires left > 0
    ensures Ran(store, Apply(store, w), [w], left, left - 1, true)
  {
    assert [w][..1] == [w] && [w][..0] == [];
    assert ApplyAll(store, [w]) == Apply(ApplyAll(store, []), w);
  }

  lemma {:induction false} KeepsRow(store: Store, writes: seq<Write>, g: nat)
    requires g in store
    ensures g in ApplyAll(store, writes)
    decreases |writes|
  {
    if writes != [] {
      KeepsRow(store, writes[..|writes| - 1], g);
    }
  }

  lemma RowsAfterCreate(store: Store, job: Work)
    ensures var now := ApplyAll(store, CreateWrites(store, job.generation, job.version));
            job.generation in now && Rows(now, job.generation) == Rows(store, job.generation)
  {
    var create := CreateWrites(store, job.generation, job.version);
    if create != [] {
      assert create[..0] == [];
      assert ApplyAll(store, create) == Apply(ApplyAll(store, []), create[0]);
    }
  }

  /** What the loop has left to write when it is at `start`. */
  ghost function Remaining(g: nat, pending: seq<Chunk>, start: nat, size: nat, embed: Provider): (seq<Write>, bool)
    requires size >= 1
  {
    Batches(g, pending, start, size, embed)
  }

  /** What the loop has left is this batch, and what it has left after it if the batch was answered in full. */
  lemma BatchesFrom(g: nat, pending: seq<Chunk>, start: nat, size: nat, embed: Provider)
    requires size >= 1 && start < |pending|
    ensures var here := OneBatch(g, BatchAt(pending, start, size), embed);
            Remaining(g, pending, start, size, embed)
            == if here.1 then Joined(here.0, Remaining(g, pending, start + size, size, embed)) else here
  {
  }

  function Joined(done: seq<Write>, rest: (seq<Write>, bool)): (seq<Write>, bool) { (done + rest.0, rest.1) }

  lemma RanShort(store: Store, now: Store, a: seq<Write>, b: seq<Write>, left: nat, after: nat)
    requires Ran(store, now, a, left, after, false)
    ensures Ran(store, now, a + b, left, after, false)
  {
    assert (a + b)[..left] == a[..left];
  }

  /** One round of the loop: `here` now, and `next` after it if it was answered in full. */
  lemma RanRound(store: Store, before: Store, now: Store, done: seq<Write>, here: (seq<Write>, bool),
                 next: (seq<Write>, bool), whole: (seq<Write>, bool),
                 left: nat, was: nat, after: nat, alive: bool)
    requires whole == Joined(done, if here.1 then Joined(here.0, next) else here)
    requires Ran(store, before, done, left, was, true) && Ran(before, now, here.0, was, after, alive)
    ensures Ran(store, now, done + here.0, left, after, alive)
    ensures whole == if here.1 then Joined(done + here.0, next) else (done + here.0, false)
    ensures !alive ==> Ran(store, now, whole.0, left, after, false)
  {
    Associate(done, here.0, next.0);
    RanAppend(store, before, now, done, here.0, left, was, after, alive);
    if !alive && here.1 {
      RanShort(store, now, done + here.0, next.0, left, after);
    }
  }

  // --------------------------------------------------------------------- code

  /** The generation and chunk tables; every method is one transaction. */
  class IndexTables {
    var generations: Store

    constructor ()
      ensures generations == map[]
    {
      generations := map[];
    }

    method CreateGeneration(g: nat, version: nat)
      modifies this
      ensures generations == Apply(old(generations), Create(g, version))
    {
      if g !in generations {
        generations := generations[g := Generation(version, Building, map[], 0)];
      }
      if generations[g].status.Failed? {
        generations := generations[g := generations[g].(status := Building)];
      }
    }

    method InsertChunks(g: nat, chunks: seq<Chunk>) returns (inserted: nat)
      requires g in generations
      modifies this
      ensures generations == Apply(old(generations), Insert(g, ChunkIds(chunks)))
      ensures inserted == |generations[g].rows| - |old(generations)[g].rows|
    {
      var rows := generations[g].rows;
      inserted := 0;
      ghost var stored := rows;
      for k := 0 to |chunks|
        invariant generations == old(generations)
        invariant rows == InsertRows(stored, ChunkIds(chunks[..k]))
        invariant inserted == |rows| - |stored|
      {
        var id := chunks[k].id;
        assert ChunkIds(chunks[..k + 1]) == ChunkIds(chunks[..k]) + [id];
        InsertOne(stored, ChunkIds(chunks[..k]), id);
        if id !in rows {
          RowsGrow(rows, id);
          rows := rows[id := None];
          inserted := inserted + 1;
        }
      }
      assert chunks[..|chunks|] == chunks;
      generations := generations[g := generations[g].(rows := rows)];
    }

    method SetEmbedding(g: nat, id: ChunkId, vector: Vector)
      modifies this
      ensures generations == Apply(old(generations), Embed(g, id, vector))
    {
      if g in generations && id in generations[g].rows {
        generations := generations[g := generations[g].(rows := generations[g].rows[id := Some(vector)])];
      }
    }

    method SwapReady(g: nat, count: nat)
      requires g in generations
      modifies this
      ensures generations == Apply(old(generations), Swap(g, count))
    {
      var version := generations[g].version;
      generations := map h | h in generations ::
        if generations[h].version == version && generations[h].status.Ready? && h != g
        then generations[h].(status := Superseded) else generations[h];
      if generations[g].status.Building? {
        generations := generations[g := generations[g].(status := Ready, count := count)];
      }
    }

    method MarkFailed(g: nat)
      modifies this
      ensures generations == Apply(old(generations), Fail(g))
    {
      if g in generations {
        generations := generations[g := generations[g].(status := Failed)];
      }
    }
  }

  class BuildSourceIndex {
    const tables: IndexTables

    constructor (tables: IndexTables)
      ensures this.tables == tables
    {
      this.tables := tables;
    }

    /** One round of the embedding loop: embed a batch, then attach one vector after another, while writes are left. */
    method EmbedBatch(g: nat, batch: seq<Chunk>, embed: Provider, left: nat) returns (after: nat, alive: bool, ok: bool)
      modifies tables
      ensures var (writes, fine) := OneBatch(g, batch, embed);
              && Ran(old(tables.generations), tables.generations, writes, left, after, alive)
              && (alive ==> ok == fine)
    {
      var answer := embed(TextsOf(batch));
      if answer.None? {
        return left, true, false;
      }
      var vectors := answer.value;
      ghost var writes := EmbedWrites(g, batch, vectors);
      after := left;
      var k := 0;
      while k < |batch| && k < |vectors|
        invariant k <= |writes| && after == left - k
        invariant tables.generations == ApplyAll(old(tables.generations), writes[..k])
        decreases |batch| - k
      {
        if after == 0 {
          return after, false, false;
        }
        assert writes[..k + 1][..k] == writes[..k];
        tables.SetEmbedding(g, batch[k].id, vectors[k]);
        k := k + 1;
        after := after - 1;
      }
      return after, true, |vectors| == |batch|;
    }

    /** The loop over the batches of the pending chunks. */
    method EmbedPending(g: nat, pending: seq<Chunk>, size: nat, embed: Provider, left: nat)
      returns (after: nat, alive: bool, ok: bool)
      requires size >= 1
      modifies tables
      ensures var (writes, fine) := Batches(g, pending, 0, size, embed);
              && Ran(old(tables.generations), tables.generations, writes, left, after, alive)
              && (alive ==> ok == fine)
    {
      ghost var store := tables.generations;
      ghost var whole := Batches(g, pending, 0, size, embed);
      ghost var done: seq<Write> := [];
      var start := 0;
      after := left;
      assert done + whole.0 == whole.0;
      while start < |pending|
        invariant whole == Joined(done, Remaining(g, pending, start, size, embed))
        invariant Ran(store, tables.generations, done, left, after, true)
        decreases |pending| - start
      {
        ghost var here := OneBatch(g, BatchAt(pending, start, size), embed);
        ghost var next := Remaining(g, pending, start + size, size, embed);
        ghost var before, was := tables.generations, after;
        after, alive, ok := EmbedBatch(g, BatchAt(pending, start, size), embed, after);
        BatchesFrom(g, pending, start, size, embed);
        RanRound(store, before, tables.generations, done, here, next, whole, left, was, after, alive);
        if !alive {
          return after, false, false;
        }
        if !ok {
          return after, true, false;
        }
        done, start := done + here.0, start + size;
      }
      assert whole.0 == done;
      return after, true, true;
    }

    /** Create the generation row when there is none or a failed one. */
    method EnsureRow(job: Job, left: nat) returns (after: nat, alive: bool)
      modifies tables
      ensures Ran(old(tables.generations), tables.generations,
                  CreateWrites(old(tables.generations), job.generation, job.version), left, after, alive)
    {
      ghost var writes := CreateWrites(tables.generations, job.generation, job.version);
      if job.generation !in tables.generations || tables.generations[job.generation].status.Failed? {
        if left == 0 {
          return left, false;
        }
        RanOne(tables.generations, writes[0], left);
        tables.CreateGeneration(job.generation, job.version);
        return left - 1, true;
      }
      return left, true;
    }

    /** The chunks that are not stored yet. */
    method FindPending(g: nat, chunks: seq<Chunk>) returns (pending: seq<Chunk>)
      ensures pending == Pending(chunks, Rows(tables.generations, g).Keys)
    {
      var existing := if g in tables.generations then tables.generations[g].rows.Keys else {};
      pending := [];
      for k := 0 to |chunks|
        invariant pending == Pending(chunks[..k], existing)
      {
        assert chunks[..k + 1][..k] == chunks[..k];
        if chunks[k].id !in existing {
          pending := pending + [chunks[k]];
        }
      }
      assert chunks[..|chunks|] == chunks;
      assert existing == Rows(tables.generations, g).Keys;
    }

    method StorePending(g: nat, pending: seq<Chunk>, left: nat) returns (after: nat, alive: bool)
      requires g in tables.generations
      modifies tables
      ensures Ran(old(tables.generations), tables.generations, InsertWrites(g, pending), left, after, alive)
    {
      ghost var writes := InsertWrites(g, pending);
      if pending != [] {
        if left == 0 {
          return left, false;
        }
        RanOne(tables.generations, writes[0], left);
        var _ := tables.InsertChunks(g, pending);
        return left - 1, true;
      }
      return left, true;
    }

    /** From the batch loop to the swap. */
    method EmbedAndSwap(job: Job, chunks: seq<Chunk>, pending: seq<Chunk>, embed: Provider, left: nat)
      returns (outcome: Outcome, ghost after: nat)
      requires job.generation in tables.generations
      modifies tables
      ensures var (writes, end) := Tail(job.generation, job.batchSize, chunks, pending, embed);
              && Ran(old(tables.generations), tables.generations, writes, left, after, outcome != Crashed)
              && (outcome != Crashed ==> outcome == end)
    {
      if job.batchSize == 0 {
        return Raised(ZeroBatch), left;
      }
      ghost var store := tables.generations;
      ghost var (writes, fine) := EmbedPhase(job.generation, job.batchSize, pending, embed);
      ghost var swap := Swap(job.generation, |chunks|);
      var rest, alive, ok := left, true, true;
      if job.batchSize > 0 {
        rest, alive, ok := EmbedPending(job.generation, pending, job.batchSize, embed, left);
      }
      assert Ran(store, tables.generations, writes, left, rest, alive) && (alive ==> ok == fine);
      if !alive {
        RanShort(store, tables.generations, writes, [swap], left, rest);
        return Crashed, rest;
      }
      if !ok {
        return Raised(EmbeddingFailed), rest;
      }
      ghost var mid := tables.generations;
      KeepsRow(store, writes[..Smaller(left, |writes|)], job.generation);
      if rest == 0 {
        assert Ran(mid, mid, [swap], rest, rest, false);
        RanAppend(store, mid, mid, writes, [swap], left, rest, rest, false);
        return Crashed, rest;
      }
      RanOne(mid, swap, rest);
      tables.SwapReady(job.generation, |chunks|);
      RanAppend(store, mid, tables.generations, writes, [swap], left, rest, rest - 1, true);
      return Done(|chunks|), rest - 1;
    }

    /** Store the missing chunks, attach vectors to them, swap. */
    method BuildChunks(job: Job, chunks: seq<Chunk>, embed: Provider, left: nat)
      returns (outcome: Outcome, ghost after: nat)
      requires job.generation in tables.generations
      modifies tables
      ensures var (writes, end) := Body(job.generation, job.batchSize, chunks,
                                        Rows(old(tables.generations), job.generation).Keys, embed);
              && Ran(old(tables.generations), tables.generations, writes, left, after, outcome != Crashed)
              && (outcome != Crashed ==> outcome == end)
    {
      ghost var store := tables.generations;
      var pending := FindPending(job.generation, chunks);
      ghost var insert := InsertWrites(job.generation, pending);
      ghost var tail := Tail(job.generation, job.batchSize, chunks, pending, embed);
      var rest, alive := StorePending(job.generation, pending, left);
      if !alive {
        RanShort(store, tables.generations, insert, tail.0, left, rest);
        return Crashed, rest;
      }
      ghost var stored := tables.generations;
      KeepsRow(store, insert[..Smaller(left, |insert|)], job.generation);
      outcome, after := EmbedAndSwap(job, chunks, pending, embed, rest);
      RanAppend(store, stored, tables.generations, insert, tail.0, left, rest, after, outcome != Crashed);
    }

    /** BuildSourceIndex.run, dying before its write number `cut`. */
    method Run(job: Job, embed: Provider, cut: nat) returns (outcome: Outcome)
      requires JobOk(job)
      modifies tables
      ensures tables.generations == StoreAfter(old(tables.generations), WorkOf(job), embed, cut)
      ensures outcome == OutcomeAfter(old(tables.generations), WorkOf(job), embed, cut)
    {
      var g := job.generation;
      if g in tables.generations && tables.generations[g].status.Ready? {
        return Done(|tables.generations[g].rows|);
      }
      ghost var store := tables.generations;
      ghost var create := CreateWrites(store, job.generation, job.version);
      ghost var script := Script(store, WorkOf(job), embed);
      var left, alive := EnsureRow(job, cut);
      ghost var created := tables.generations;
      if !alive {
        RanShort(store, created, create, script.0[|create|..], cut, left);
        assert create + script.0[|create|..] == script.0;
        return Crashed;
      }
      RowsAfterCreate(store, WorkOf(job));
      assert created == ApplyAll(store, create) by { assert create[..|create|] == create; }
      if job.document.None? {
        return Raised(NoDocument);
      }
      if job.document.value.version != job.version {
        return Raised(OtherVersion);
      }
      var chunking := ChunkDocument(job.document.value.content, job.profile);
      if chunking.ProfileRefused? {
        return Raised(BadProfile);
      }
      ghost var body := Body(job.generation, job.batchSize, ChunksOf(job), Rows(store, g).Keys, embed);
      ghost var after: nat;
      outcome, after := BuildChunks(job, chunking.chunks, embed, left);
      RanAppend(store, created, tables.generations, create, body.0, cut, left, after, outcome != Crashed);
    }
  }

  // ------------------------------------------------------- one ready generation

  ghost predicate ReadyFor(store: Store, g: nat, h: nat) {
    g in store && h in store && store[g].status.Ready? && store[h].status.Ready? && store[g].version == store[h].version
  }

  ghost predicate OneReady(store: Store) {
    forall g, h :: ReadyFor(store, g, h) ==> g == h
  }

  lemma ApplyKeepsOneReady(store: Store, w: Write)
    requires OneReady(store)
    ensures OneReady(Apply(store, w))
    ensures forall g :: g in store ==> g in Apply(store, w) && Apply(store, w)[g].version == store[g].version
  {
    var now := Apply(store, w);
    forall g, h | ReadyFor(now, g, h) ensures g == h {
      if g != w.generation && h != w.generation { assert ReadyFor(store, g, h); }
      if !w.Swap? { assert ReadyFor(store, g, h); }
    }
  }

  /**
   However the transactions of any builds interleave, a source version has at most one ready
   generation, and a generation never changes its source version.
   */
  lemma {:induction false} WritesKeepOneReady(store: Store, writes: seq<Write>)
    requires OneReady(store)
    ensures var now := ApplyAll(store, writes);
            OneReady(now) && forall g :: g in store ==> g in now && now[g].version == store[g].version
    decreases |writes|
  {
    if writes != [] {
      WritesKeepOneReady(store, writes[..|writes| - 1]);
      ApplyKeepsOneReady(ApplyAll(store, writes[..|writes| - 1]), writes[|writes| - 1]);
    }
  }

  // ---------------------------------------------------------------- stored chunks

  function SetOf(ids: seq<ChunkId>): set<ChunkId> { set i | i in ids }

  lemma {:induction false} SetOfSize(ids: seq<ChunkId>)
    requires Distinct(ids)
    ensures |SetOf(ids)| == |ids|
  {
    if ids != [] {
      var n := |ids| - 1;
      SetOfSize(ids[..n]);
      assert SetOf(ids) == SetOf(ids[..n]) + {ids[n]};
    }
  }

  lemma SetOfPush(ids: seq<ChunkId>, id: ChunkId)
    ensures SetOf(ids + [id]) == SetOf(ids) + {id}
  {
  }

  /** Only wanted chunks are stored, all of them once the generation has been ready. */
  ghost predicate Partial(store: Store, g: nat, want: seq<ChunkId>) {
    g in store ==>
      var row := store[g];
      && row.rows.Keys <= SetOf(want)
      && (row.status.Ready? || row.status.Superseded? ==> row.rows.Keys == SetOf(want))
      && (row.status.Ready? ==> row.count == |want|)
  }

  /** A write that cannot spoil this: it stores wanted chunks only, and swaps only a complete generation. */
  ghost predicate Careful(store: Store, w: Write, g: nat, want: seq<ChunkId>) {
    w.generation == g ==>
      && (w.Insert? ==> SetOf(w.ids) <= SetOf(want))
      && (w.Swap? ==> Rows(store, g).Keys == SetOf(want) && w.count == |want|)
  }

  lemma CarefulKeeps(store: Store, w: Write, g: nat, want: seq<ChunkId>)
    requires Partial(store, g, want) && Careful(store, w, g, want)
    ensures Partial(Apply(store, w), g, want)
  {
    if w.Insert? && w.generation == g && g in store {
      assert InsertRows(store[g].rows, w.ids).Keys == store[g].rows.Keys + SetOf(w.ids);
    }
  }

  /** Stored rows stay stored. */
  lemma {:induction false} RowsStay(store: Store, writes: seq<Write>, g: nat)
    ensures Rows(store, g).Keys <= Rows(ApplyAll(store, writes), g).Keys
    decreases |writes|
  {
    if writes != [] {
      RowsStay(store, writes[..|writes| - 1], g);
    }
  }

  lemma {:induction false} PendingIs(chunks: seq<Chunk>, existing: set<ChunkId>)
    ensures var pending := Pending(chunks, existing);
            && SetOf(ChunkIds(pending)) == SetOf(ChunkIds(chunks)) - existing
            && (forall c :: c in pending ==> c in chunks)
            && |pending| <= |chunks|
            && (existing == {} ==> pending == chunks)
  {
    if chunks != [] {
      var n := |chunks| - 1;
      PendingIs(chunks[..n], existing);
      assert chunks == chunks[..n] + [chunks[n]];
      assert ChunkIds(chunks) == ChunkIds(chunks[..n]) + [chunks[n].id];
      SetOfPush(ChunkIds(chunks[..n]), chunks[n].id);
      var before := Pending(chunks[..n], existing);
      if chunks[n].id !in existing {
        SetOfPush(ChunkIds(before), chunks[n].id);
        assert ChunkIds(before + [chunks[n]]) == ChunkIds(before) + [chunks[n].id];
      }
    }
  }

  /** Whatever this job builds for generation `g` are the wanted chunks. */
  ghost predicate Wants(job: Work, g: nat, want: seq<ChunkId>)
  {
    job.generation == g && job.refused.None? ==> ChunkIds(job.chunks) == want
  }

  /** The shape of a script: at most one create, one insert of missing chunks, vectors, and a last swap. */
  lemma ScriptShape(store: Store, job: Work, embed: Provider, k: nat)
    requires k < |Script(store, job, embed).0|
    ensures var (writes, end) := Script(store, job, embed);
            var w := writes[k];
            && w.generation == job.generation && !w.Fail?
            && (w.Insert? ==>
                  job.refused.None? && w.ids == ChunkIds(Pending(job.chunks, Rows(store, job.generation).Keys)))
            && (w.Swap? ==> job.refused.None? && k == |writes| - 1 && w.count == |job.chunks| && end == Done(w.count))
  {
    var create := CreateWrites(store, job.generation, job.version);
    if k >= |create| {
      var chunks := job.chunks;
      var pending := Pending(chunks, Rows(store, job.generation).Keys);
      var insert := InsertWrites(job.generation, pending);
      var phase := EmbedPhase(job.generation, job.batchSize, pending, embed);
      var i := k - |create| - |insert|;
      if 0 <= i < |phase.0| {
        assert phase.0[i] in phase.0;
      }
    }
  }

  lemma StoredAfter(store: Store, a: seq<Write>, b: seq<Write>, c: seq<Write>, g: nat, keys: set<ChunkId>)
    requires keys <= Rows(ApplyAll(ApplyAll(store, a), b), g).Keys
    ensures keys <= Rows(ApplyAll(store, a + b + c), g).Keys
  {
    ApplyAppend(store, a, b);
    ApplyAppend(store, a + b, c);
    RowsStay(ApplyAll(store, a + b), c, g);
  }

  lemma StoresAll(store: Store, create: seq<Write>, phase: seq<Write>, g: nat, chunks: seq<Chunk>)
    requires g in ApplyAll(store, create) && Rows(ApplyAll(store, create), g) == Rows(store, g)
    ensures var insert := InsertWrites(g, Pending(chunks, Rows(store, g).Keys));
            SetOf(ChunkIds(chunks)) <= Rows(ApplyAll(store, create + insert + phase), g).Keys
  {
    var pending := Pending(chunks, Rows(store, g).Keys);
    PendingIs(chunks, Rows(store, g).Keys);
    StoresPending(ApplyAll(store, create), g, pending);
    StoredAfter(store, create, InsertWrites(g, pending), phase, g, SetOf(ChunkIds(chunks)));
  }

  lemma DropLast<T>(a: seq<T>, b: seq<T>, c: seq<T>, x: T)
    ensures var whole := a + (b + (c + [x])); whole[..|whole| - 1] == a + b + c
  {
  }

  lemma SwapIsLast(store: Store, job: Work, embed: Provider, k: nat)
    requires k < |Script(store, job, embed).0| && Script(store, job, embed).0[k].Swap?
    ensures job.refused.None?
    ensures var pending := Pending(job.chunks, Rows(store, job.generation).Keys);
            Script(store, job, embed).0[..k]
            == CreateWrites(store, job.generation, job.version) + InsertWrites(job.generation, pending) +
              EmbedPhase(job.generation, job.batchSize, pending, embed).0
  {
    ScriptShape(store, job, embed, k);
    var pending := Pending(job.chunks, Rows(store, job.generation).Keys);
    var writes := Script(store, job, embed).0;
    var phase := EmbedPhase(job.generation, job.batchSize, pending, embed);
    DropLast(CreateWrites(store, job.generation, job.version), InsertWrites(job.generation, pending), phase.0,
             Swap(job.generation, |job.chunks|));
  }

  /** Before the swap every chunk is stored. */
  lemma StoredBeforeSwap(store: Store, job: Work, embed: Provider, k: nat)
    requires k < |Script(store, job, embed).0| && Script(store, job, embed).0[k].Swap?
    ensures SetOf(ChunkIds(job.chunks)) <= Rows(ApplyAll(store, Script(store, job, embed).0[..k]), job.generation).Keys
  {
    RowsAfterCreate(store, job);
    StoresAll(store, CreateWrites(store, job.generation, job.version),
              EmbedPhase(job.generation, job.batchSize, Pending(job.chunks, Rows(store, job.generation).Keys), embed).0,
              job.generation, job.chunks);
    SwapIsLast(store, job, embed, k);
  }

  lemma StoresPending(store: Store, g: nat, pending: seq<Chunk>)
    requires g in store
    ensures Rows(ApplyAll(store, InsertWrites(g, pending)), g).Keys == Rows(store, g).Keys + SetOf(ChunkIds(pending))
  {
    var writes := InsertWrites(g, pending);
    if pending != [] {
      assert writes[..0] == [];
      assert ApplyAll(store, writes) == Apply(ApplyAll(store, []), writes[0]);
      assert InsertRows(store[g].rows, ChunkIds(pending)).Keys == store[g].rows.Keys + SetOf(ChunkIds(pending));
    } else {
      assert SetOf(ChunkIds(pending)) == {};
    }
  }

  /** Every insert is of wanted chunks, and every swap comes when they are all stored. */
  ghost predicate SafeAt(store: Store, writes: seq<Write>, k: nat, g: nat, want: seq<ChunkId>)
    requires k < |writes|
  {
    var w := writes[k];
    w.generation == g ==>
      && (w.Insert? ==> SetOf(w.ids) <= SetOf(want))
      && (w.Swap? ==> w.count == |want| && SetOf(want) <= Rows(ApplyAll(store, writes[..k]), g).Keys)
  }

  ghost predicate SafeWrites(store: Store, writes: seq<Write>, g: nat, want: seq<ChunkId>) {
    forall k: nat :: k < |writes| ==> SafeAt(store, writes, k, g, want)
  }

  lemma {:induction false} SafeKeeps(store: Store, writes: seq<Write>, n: nat, g: nat, want: seq<ChunkId>)
    requires SafeWrites(store, writes, g, want) && Partial(store, g, want) && n <= |writes|
    ensures Partial(ApplyAll(store, writes[..n]), g, want)
  {
    if n > 0 {
      SafeKeeps(store, writes, n - 1, g, want);
      assert SafeAt(store, writes, n - 1, g, want);
      var before := ApplyAll(store, writes[..n - 1]);
      CarefulKeeps(before, writes[n - 1], g, want);
      assert writes[..n][..n - 1] == writes[..n - 1];
    }
  }

  lemma ScriptIsSafe(store: Store, job: Work, embed: Provider, g: nat, want: seq<ChunkId>)
    requires Wants(job, g, want)
    ensures SafeWrites(store, Script(store, job, embed).0, g, want)
  {
    var writes := Script(store, job, embed).0;
    forall k: nat | k < |writes| ensures SafeAt(store, writes, k, g, want) {
      ScriptShape(store, job, embed, k);
      if writes[k].generation == g {
        if writes[k].Insert? { PendingIs(job.chunks, Rows(store, g).Keys); }
        if writes[k].Swap? { StoredBeforeSwap(store, job, embed, k); }
      }
    }
  }

  /** A run of a generation that is not ready ends well only by its swap. */
  lemma DoneBySwap(store: Store, job: Work, embed: Provider)
    requires Script(store, job, embed).1.Done? && !AlreadyReady(store, job.generation)
    ensures var writes := Script(store, job, embed).0;
            |writes| > 0 && writes[|writes| - 1] == Swap(job.generation, |job.chunks|)
    ensures job.refused.None? && Script(store, job, embed).1.count == |job.chunks|
  {
  }

  lemma SwapKeepsRows(store: Store, writes: seq<Write>, g: nat)
    requires |writes| > 0 && writes[|writes| - 1].Swap?
    ensures Rows(ApplyAll(store, writes), g) == Rows(ApplyAll(store, writes[..|writes| - 1]), g)
  {
  }

  /** A run that ends well leaves exactly the wanted chunks stored and returns their number. */
  lemma DoneIsComplete(store: Store, job: Work, embed: Provider, want: seq<ChunkId>)
    requires Wants(job, job.generation, want) && Partial(store, job.generation, want) && Distinct(want)
    requires Script(store, job, embed).1.Done?
    ensures var (writes, end) := Script(store, job, embed);
            end.count == |want| && Rows(ApplyAll(store, writes), job.generation).Keys == SetOf(want)
  {
    var g := job.generation;
    if AlreadyReady(store, job.generation) {
      SetOfSize(want);
      assert |store[g].rows| == |store[g].rows.Keys|;
    } else {
      DoneBySwap(store, job, embed);
      var writes := Script(store, job, embed).0;
      var k := |writes| - 1;
      StoredBeforeSwap(store, job, embed, k);
      ScriptIsSafe(store, job, embed, g, want);
      SafeKeeps(store, writes, k, g, want);
      CreatedBySwap(store, job, embed);
      SwapKeepsRows(store, writes, g);
    }
  }

  lemma CreatedBySwap(store: Store, job: Work, embed: Provider)
    requires Script(store, job, embed).1.Done? && !AlreadyReady(store, job.generation)
    ensures var writes := Script(store, job, embed).0;
            |writes| > 0 && job.generation in ApplyAll(store, writes[..|writes| - 1])
  {
    var writes := Script(store, job, embed).0;
    RowsAfterCreate(store, job);
    DoneBySwap(store, job, embed);
    SwapIsLast(store, job, embed, |writes| - 1);
    var pending := Pending(job.chunks, Rows(store, job.generation).Keys);
    KeptAfter(store, CreateWrites(store, job.generation, job.version), InsertWrites(job.generation, pending),
              EmbedPhase(job.generation, job.batchSize, pending, embed).0, job.generation);
  }

  lemma KeptAfter(store: Store, a: seq<Write>, b: seq<Write>, c: seq<Write>, g: nat)
    requires g in ApplyAll(store, a)
    ensures g in ApplyAll(store, a + b + c)
  {
    ApplyAppend(store, a, b);
    KeepsRow(ApplyAll(store, a), b, g);
    ApplyAppend(store, a + b, c);
    KeepsRow(ApplyAll(store, a + b), c, g);
  }

  /**
   One attempt, cut anywhere: stored chunks stay among the wanted ones; a run that ends well
   returns their number and leaves exactly all of them stored.
   */
  lemma AttemptKeeps(store: Store, job: Work, embed: Provider, cut: nat, g: nat, want: seq<ChunkId>)
    requires Wants(job, g, want) && Partial(store, g, want) && Distinct(want)
    ensures var now, outcome := StoreAfter(store, job, embed, cut), OutcomeAfter(store, job, embed, cut);
            && Partial(now, g, want)
            && (job.generation == g && outcome.Done? ==> outcome.count == |want| && Rows(now, g).Keys == SetOf(want))
  {
    var writes := Script(store, job, embed).0;
    ScriptIsSafe(store, job, embed, g, want);
    SafeKeeps(store, writes, Smaller(cut, |writes|), g, want);
    if job.generation == g && OutcomeAfter(store, job, embed, cut).Done? {
      DoneIsComplete(store, job, embed, want);
      assert writes[..|writes|] == writes;
    }
  }

  // ------------------------------------------------------------------ histories

  datatype Event = Attempt(job: Work, embed: Provider, cut: nat) | MarkFailed(generation: nat)

  ghost function Happen(store: Store, e: Event): Store {
    match e
    case Attempt(job, embed, cut) => StoreAfter(store, job, embed, cut)
    case MarkFailed(g) => Apply(store, Fail(g))
  }

  ghost predicate HistoryOk(history: seq<Event>, g: nat, want: seq<ChunkId>) {
    forall e :: e in history ==> e.Attempt? ==> Wants(e.job, g, want)
  }

  ghost function Past(store: Store, history: seq<Event>): Store {
    if history == [] then store else Happen(Past(store, history[..|history| - 1]), history[|history| - 1])
  }

  lemma HappenKeepsOneReady(store: Store, e: Event)
    requires OneReady(store)
    ensures OneReady(Happen(store, e))
  {
    match e {
      case Attempt(job, embed, cut) =>
        var writes := Script(store, job, embed).0;
        WritesKeepOneReady(store, writes[..Smaller(cut, |writes|)]);
      case MarkFailed(_) =>
        ApplyKeepsOneReady(store, Fail(e.generation));
    }
  }

  lemma HappenKeeps(store: Store, e: Event, g: nat, want: seq<ChunkId>)
    requires (e.Attempt? ==> Wants(e.job, g, want)) && Distinct(want)
    requires Partial(store, g, want) && OneReady(store)
    ensures Partial(Happen(store, e), g, want) && OneReady(Happen(store, e))
  {
    HappenKeepsOneReady(store, e);
    if e.Attempt? {
      AttemptKeeps(store, e.job, e.embed, e.cut, g, want);
    }
  }

  /**
   Over any history of crashed, failed and completed builds of any generations, as long as every
   attempt of one yields the same chunks: its stored chunks stay among them, they are all of them
   whenever it is ready, and at most one generation of a source version is ready.
   */
  lemma {:induction false} HistoryKeeps(history: seq<Event>, g: nat, want: seq<ChunkId>)
    requires HistoryOk(history, g, want) && Distinct(want)
    ensures Partial(Past(map[], history), g, want) && OneReady(Past(map[], history))
    decreases |history|
  {
    if history != [] {
      var n := |history| - 1;
      HistoryKeeps(history[..n], g, want);
      assert history[n] in history;
      HappenKeeps(Past(map[], history[..n]), history[n], g, want);
    }
  }

  /**
   After any such history, every attempt of a job that completes returns the number of chunks its
   document yields, and leaves exactly those stored.
   */
  lemma ResumableBuild(history: seq<Event>, job: Job, embed: Provider, cut: nat)
    requires JobOk(job) && Buildable(job) && HistoryOk(history, job.generation, ChunkIds(ChunksOf(job)))
    requires OutcomeAfter(Past(map[], history), WorkOf(job), embed, cut).Done?
    ensures OutcomeAfter(Past(map[], history), WorkOf(job), embed, cut) == Done(|ChunksOf(job)|)
    ensures Rows(StoreAfter(Past(map[], history), WorkOf(job), embed, cut), job.generation).Keys ==
            SetOf(ChunkIds(ChunksOf(job)))
  {
    var want := ChunkIds(ChunksOf(job));
    IdsDistinct(ChunksOf(job));
    HistoryKeeps(history, job.generation, want);
    AttemptKeeps(Past(map[], history), WorkOf(job), embed, cut, job.generation, want);
  }

  // -------------------------------------------- attempts that yield other chunks

  /**
   The id of a generation names neither the canonical document nor the token limit, so its attempts
   may yield different chunks. The chunks an event would store in `g`:
   */
  ghost function Yields(e: Event, g: nat): set<ChunkId> {
    if e.Attempt? && e.job.generation == g && e.job.refused.None? then SetOf(ChunkIds(e.job.chunks)) else {}
  }

  ghost function YieldsOf(history: seq<Event>, g: nat): set<ChunkId> {
    if history == [] then {} else YieldsOf(history[..|history| - 1], g) + Yields(history[|history| - 1], g)
  }

  predicate InsertsWithin(w: Write, g: nat, ids: set<ChunkId>) {
    w.Insert? && w.generation == g ==> SetOf(w.ids) <= ids
  }

  lemma RowsWithinOne(store: Store, w: Write, g: nat, ids: set<ChunkId>)
    requires InsertsWithin(w, g, ids)
    ensures Rows(Apply(store, w), g).Keys <= Rows(store, g).Keys + ids
  {
    if w.Insert? && w.generation == g && g in store {
      assert InsertRows(store[g].rows, w.ids).Keys == store[g].rows.Keys + SetOf(w.ids);
    }
  }

  lemma {:induction false} RowsWithin(store: Store, writes: seq<Write>, n: nat, g: nat, ids: set<ChunkId>)
    requires n <= |writes| && forall k: nat :: k < |writes| ==> InsertsWithin(writes[k], g, ids)
    ensures Rows(ApplyAll(store, writes[..n]), g).Keys <= Rows(store, g).Keys + ids
  {
    if n > 0 {
      RowsWithin(store, writes, n - 1, g, ids);
      assert writes[..n][..n - 1] == writes[..n - 1];
      RowsWithinOne(ApplyAll(store, writes[..n - 1]), writes[n - 1], g, ids);
    }
  }

  /** Any event keeps what is stored, and adds at most what it yields. */
  lemma HappenWithin(store: Store, e: Event, g: nat)
    ensures Rows(store, g).Keys <= Rows(Happen(store, e), g).Keys <= Rows(store, g).Keys + Yields(e, g)
  {
    match e {
      case Attempt(job, embed, cut) =>
        var writes := Script(store, job, embed).0;
        forall k: nat | k < |writes| ensures InsertsWithin(writes[k], g, Yields(e, g)) {
          ScriptShape(store, job, embed, k);
          PendingIs(job.chunks, Rows(store, job.generation).Keys);
        }
        RowsWithin(store, writes, Smaller(cut, |writes|), g, Yields(e, g));
        RowsStay(store, writes[..Smaller(cut, |writes|)], g);
      case MarkFailed(_) =>
    }
  }

  /** Over any history at all, what is stored is among what the attempts yielded, and one generation is ready. */
  lemma {:induction false} HistoryWithin(history: seq<Event>, g: nat)
    ensures Rows(Past(map[], history), g).Keys <= YieldsOf(history, g) && OneReady(Past(map[], history))
    decreases |history|
  {
    if history != [] {
      var n := |history| - 1;
      HistoryWithin(history[..n], g);
      HappenWithin(Past(map[], history[..n]), history[n], g);
      HappenKeepsOneReady(Past(map[], history[..n]), history[n]);
    }
  }

  /** A run that swaps has added its chunks to whatever was stored. */
  lemma DoneAdds(store: Store, job: Work, embed: Provider)
    requires Script(store, job, embed).1.Done? && !AlreadyReady(store, job.generation)
    ensures Rows(ApplyAll(store, Script(store, job, embed).0), job.generation).Keys
            == Rows(store, job.generation).Keys + SetOf(ChunkIds(job.chunks))
    ensures Script(store, job, embed).1.count == |job.chunks|
  {
    DoneBySwap(store, job, embed);
    EmbeddedAfterAll(store, job, embed);
    PendingIs(job.chunks, Rows(store, job.generation).Keys);
  }

  /**
   After any history, a completed attempt leaves exactly the chunks of its document stored if and only
   if no others were stored before, and returns the number of stored chunks in that case only; an
   attempt that finds the generation ready stores nothing and returns the number of stored chunks.
   */
  lemma ResumedExactly(history: seq<Event>, job: Job, embed: Provider, cut: nat)
    requires JobOk(job) && Buildable(job)
    requires OutcomeAfter(Past(map[], history), WorkOf(job), embed, cut).Done?
    ensures var before := Past(map[], history);
            var now := StoreAfter(before, WorkOf(job), embed, cut);
            var want := SetOf(ChunkIds(ChunksOf(job)));
            var g, outcome := job.generation, OutcomeAfter(before, WorkOf(job), embed, cut);
            if AlreadyReady(before, g) then now == before && outcome.count == |Rows(now, g)|
            else
              && outcome == Done(|ChunksOf(job)|)
              && (Rows(now, g).Keys == want <==> Rows(before, g).Keys <= want)
              && (outcome.count == |Rows(now, g)| <==> Rows(before, g).Keys <= want)
              && (YieldsOf(history, g) <= want ==> Rows(now, g).Keys == want)
  {
    var before, work, g := Past(map[], history), WorkOf(job), job.generation;
    var writes := Script(before, work, embed).0;
    assert writes[..|writes|] == writes;
    if !AlreadyReady(before, g) {
      DoneAdds(before, work, embed);
      HistoryWithin(history, g);
      IdsDistinct(ChunksOf(job));
      SetOfSize(ChunkIds(ChunksOf(job)));
      SameSize(SetOf(ChunkIds(ChunksOf(job))), Rows(ApplyAll(before, writes), g));
    }
  }

  lemma SameSize(want: set<ChunkId>, rows: map<ChunkId, Option<Vector>>)
    requires want <= rows.Keys
    ensures |rows| == |want| <==> rows.Keys == want
  {
    assert |rows| == |rows.Keys|;
    assert rows.Keys == want + (rows.Keys - want);
  }

  /**
   It does happen that others are left: an attempt that crashed after storing its chunks, and one with
   other chunks that resumes it. The generation ends with the chunks of both, the count of the second.
   */
  lemma OtherChunksStay(store: Store, first: Work, second: Work, embed: Provider, id: ChunkId)
    requires first.generation == second.generation && first.generation !in store
    requires first.refused.None? && first.batchSize != 0 && first.chunks != []
    requires id in SetOf(ChunkIds(first.chunks)) && id !in SetOf(ChunkIds(second.chunks))
    requires Script(StoreAfter(store, first, embed, 2), second, embed).1.Done?
    ensures var g, crashed := first.generation, StoreAfter(store, first, embed, 2);
            var now := ApplyAll(crashed, Script(crashed, second, embed).0);
            && g in now && now[g].status.Ready? && id in Rows(now, g)
            && Rows(now, g).Keys == SetOf(ChunkIds(first.chunks)) + SetOf(ChunkIds(second.chunks))
            && Script(crashed, second, embed).1 == Done(|second.chunks|)
  {
    CrashedRows(store, first, embed);
    var crashed := StoreAfter(store, first, embed, 2);
    DoneAdds(crashed, second, embed);
    ReadyExactly(crashed, second, embed);
  }

  lemma IdsDistinct(chunks: seq<Chunk>)
    requires DistinctChunkIds(chunks)
    ensures Distinct(ChunkIds(chunks))
  {
  }

  // ------------------------------------------------------------------- vectors

  /** A completed embedding loop writes one vector for each pending chunk, once and in order. */
  lemma {:induction false} BatchesCoverOnce(g: nat, pending: seq<Chunk>, start: nat, size: nat, embed: Provider)
    requires size >= 1 && start <= |pending| && Batches(g, pending, start, size, embed).1
    ensures var writes := Batches(g, pending, start, size, embed).0;
            && |writes| == |pending| - start
            && forall i :: 0 <= i < |writes| ==> writes[i].Embed? && writes[i].id == pending[start + i].id
    decreases |pending| - start
  {
    if start < |pending| {
      var batch, here := BatchAt(pending, start, size), OneBatch(g, BatchAt(pending, start, size), embed);
      assert |here.0| == |batch| && forall i :: 0 <= i < |batch| ==> here.0[i].id == pending[start + i].id;
      if start + size < |pending| {
        BatchesCoverOnce(g, pending, start + size, size, embed);
      }
    }
  }

  ghost predicate Mild(writes: seq<Write>, g: nat) {
    forall w :: w in writes ==> w.generation == g && (w.Insert? || w.Embed?)
  }

  predicate Embedded(rows: map<ChunkId, Option<Vector>>, id: ChunkId) { id in rows && rows[id].Some? }

  predicate AllEmbedded(rows: map<ChunkId, Option<Vector>>) { forall id :: id in rows ==> rows[id].Some? }

  ghost predicate Attaches(writes: seq<Write>, id: ChunkId) {
    exists k: nat :: k < |writes| && writes[k].Embed? && writes[k].id == id
  }

  lemma {:induction false} EmbedsExactly(store: Store, writes: seq<Write>, g: nat, id: ChunkId)
    requires g in store && forall w :: w in writes ==> w.Embed? && w.generation == g
    ensures var now := ApplyAll(store, writes);
            && Rows(now, g).Keys == Rows(store, g).Keys
            && (id in store[g].rows ==>
                  (Embedded(Rows(now, g), id) <==> Embedded(Rows(store, g), id) || Attaches(writes, id)))
    decreases |writes|
  {
    if writes != [] {
      var n := |writes| - 1;
      assert writes[n] in writes;
      KeepsRow(store, writes[..n], g);
      EmbedsExactly(store, writes[..n], g, id);
      assert Attaches(writes, id) <==> Attaches(writes[..n], id) || writes[n].id == id by {
        if k: nat :| k < n && writes[k].Embed? && writes[k].id == id { assert writes[..n][k].id == id; }
      }
    }
  }

  lemma {:induction false} PendingFresh(chunks: seq<Chunk>, existing: set<ChunkId>, id: ChunkId)
    ensures id in existing ==> forall k :: 0 <= k < |Pending(chunks, existing)| ==>
            Pending(chunks, existing)[k].id != id
  {
    if chunks != [] {
      PendingFresh(chunks[..|chunks| - 1], existing, id);
    }
  }

  /** The rows before the swap, from the rows after the create. */
  lemma BodyRows(created: Store, job: Work, chunks: seq<Chunk>, embed: Provider, id: ChunkId)
    requires job.generation in created
    requires var pending := Pending(chunks, Rows(created, job.generation).Keys);
             EmbedPhase(job.generation, job.batchSize, pending, embed).1
    ensures var g := job.generation;
            var pending := Pending(chunks, Rows(created, g).Keys);
            var now := ApplyAll(ApplyAll(created, InsertWrites(g, pending)),
                                EmbedPhase(job.generation, job.batchSize, pending, embed).0);
            && Rows(now, g).Keys == Rows(created, g).Keys + SetOf(ChunkIds(pending))
            && (id in Rows(now, g) ==>
                  (Embedded(Rows(now, g), id)
                   <==> Embedded(Rows(created, g), id) || (job.batchSize > 0 && id in SetOf(ChunkIds(pending)))))
  {
    var g := job.generation;
    var pending := Pending(chunks, Rows(created, g).Keys);
    var phase := EmbedPhase(job.generation, job.batchSize, pending, embed).0;
    var stored := ApplyAll(created, InsertWrites(g, pending));
    StoresPending(created, g, pending);
    InsertEmbedsNothing(created, g, pending, id);
    KeepsRow(created, InsertWrites(g, pending), g);
    EmbedsExactly(stored, phase, g, id);
    AttachesPending(g, job.batchSize, pending, embed, id);
  }

  lemma InsertEmbedsNothing(store: Store, g: nat, pending: seq<Chunk>, id: ChunkId)
    requires g in store
    ensures Embedded(Rows(ApplyAll(store, InsertWrites(g, pending)), g), id) <==> Embedded(Rows(store, g), id)
  {
    var writes := InsertWrites(g, pending);
    if pending != [] {
      assert writes[..0] == [];
      assert ApplyAll(store, writes) == Apply(ApplyAll(store, []), writes[0]);
    }
  }

  lemma AttachesListed(writes: seq<Write>, pending: seq<Chunk>, id: ChunkId)
    requires |writes| == |pending|
    requires forall i :: 0 <= i < |writes| ==> writes[i].Embed? && writes[i].id == pending[i].id
    ensures Attaches(writes, id) <==> id in SetOf(ChunkIds(pending))
  {
    if id in SetOf(ChunkIds(pending)) {
      var k :| 0 <= k < |pending| && ChunkIds(pending)[k] == id;
      assert writes[k].id == id;
    }
    if Attaches(writes, id) {
      var k: nat :| k < |writes| && writes[k].Embed? && writes[k].id == id;
      assert ChunkIds(pending)[k] == id;
    }
  }

  lemma AttachesPending(g: nat, batchSize: int, pending: seq<Chunk>, embed: Provider, id: ChunkId)
    requires EmbedPhase(g, batchSize, pending, embed).1
    ensures Attaches(EmbedPhase(g, batchSize, pending, embed).0, id) <==>
            batchSize > 0 && id in SetOf(ChunkIds(pending))
  {
    if batchSize > 0 {
      BatchesCoverOnce(g, pending, 0, batchSize, embed);
      AttachesListed(Batches(g, pending, 0, batchSize, embed).0, pending, id);
    }
  }

  /** A run that ends with a swap, taken apart. */
  lemma DoneParts(store: Store, job: Work, embed: Provider)
    requires Script(store, job, embed).1.Done? && !AlreadyReady(store, job.generation)
    ensures job.refused.None?
    ensures var g := job.generation;
            var chunks := job.chunks;
            var created := ApplyAll(store, CreateWrites(store, job.generation, job.version));
            var pending := Pending(chunks, Rows(created, g).Keys);
            && g in created && Rows(created, g) == Rows(store, g)
            && EmbedPhase(job.generation, job.batchSize, pending, embed).1
            && ApplyAll(store, Script(store, job, embed).0)
               == Apply(ApplyAll(ApplyAll(created, InsertWrites(g, pending)),
                                 EmbedPhase(job.generation, job.batchSize, pending, embed).0),
                        Swap(g, |chunks|))
  {
    RowsAfterCreate(store, job);
    DoneBySwap(store, job, embed);
    var writes := Script(store, job, embed).0;
    SwapIsLast(store, job, embed, |writes| - 1);
    var create := CreateWrites(store, job.generation, job.version);
    var pending := Pending(job.chunks, Rows(store, job.generation).Keys);
    var insert := InsertWrites(job.generation, pending);
    var phase := EmbedPhase(job.generation, job.batchSize, pending, embed);
    ApplyAppend(store, create, insert);
    ApplyAppend(store, create + insert, phase.0);
  }

  lemma SwapRows(store: Store, g: nat, count: nat)
    ensures Rows(Apply(store, Swap(g, count)), g) == Rows(store, g)
  {
  }

  /** Which chunks have a vector after a run that swaps: those that had one, and the new ones if any batch is taken. */
  lemma EmbeddedAfter(store: Store, job: Work, embed: Provider, id: ChunkId)
    requires Script(store, job, embed).1.Done? && !AlreadyReady(store, job.generation)
    ensures job.refused.None?
    ensures var g := job.generation;
            var now := ApplyAll(store, Script(store, job, embed).0);
            var pending := SetOf(ChunkIds(Pending(job.chunks, Rows(store, g).Keys)));
            && Rows(now, g).Keys == Rows(store, g).Keys + pending
            && (Embedded(Rows(now, g), id) <==> Embedded(Rows(store, g), id) || (job.batchSize > 0 && id in pending))
  {
    DoneParts(store, job, embed);
    var g, chunks := job.generation, job.chunks;
    var created := ApplyAll(store, CreateWrites(store, job.generation, job.version));
    var pending := Pending(chunks, Rows(created, g).Keys);
    BodyRows(created, job, chunks, embed, id);
    SwapRows(ApplyAll(ApplyAll(created, InsertWrites(g, pending)),
                      EmbedPhase(job.generation, job.batchSize, pending, embed).0), g, |chunks|);
  }

  lemma EmbeddedAfterAll(store: Store, job: Work, embed: Provider)
    requires job.refused.None? && Script(store, job, embed).1.Done? && !AlreadyReady(store, job.generation)
    ensures var before := Rows(store, job.generation);
            var now := Rows(ApplyAll(store, Script(store, job, embed).0), job.generation);
            var pending := SetOf(ChunkIds(Pending(job.chunks, before.Keys)));
            && now.Keys == before.Keys + pending
            && forall id :: Embedded(now, id) <==> Embedded(before, id) || (job.batchSize > 0 && id in pending)
  {
    var before, now := Rows(store, job.generation), Rows(ApplyAll(store, Script(store, job, embed).0), job.generation);
    var pending := SetOf(ChunkIds(Pending(job.chunks, before.Keys)));
    forall id: ChunkId
      ensures now.Keys == before.Keys + pending
      ensures Embedded(now, id) <==> Embedded(before, id) || (job.batchSize > 0 && id in pending)
    {
      EmbeddedAfter(store, job, embed, id);
    }
    EmbeddedAfter(store, job, embed, ChunkId(0, "", 0, 0));
  }

  /**
   When a completed run leaves every stored chunk with a vector: exactly when the chunks stored
   before it all had one, and it takes batches at all or has nothing to add.
   */
  lemma AllEmbeddedExactly(store: Store, job: Work, embed: Provider, want: seq<ChunkId>)
    requires Wants(job, job.generation, want) && Partial(store, job.generation, want)
    requires Script(store, job, embed).1.Done?
    ensures AllEmbedded(Rows(ApplyAll(store, Script(store, job, embed).0), job.generation))
       <==> AllEmbedded(Rows(store, job.generation))
            && (job.batchSize > 0 || SetOf(want) <= Rows(store, job.generation).Keys)
  {
    var g := job.generation;
    if !AlreadyReady(store, job.generation) {
      DoneParts(store, job, embed);
      var before, now := Rows(store, g), Rows(ApplyAll(store, Script(store, job, embed).0), g);
      var pending := SetOf(ChunkIds(Pending(job.chunks, before.Keys)));
      PendingIs(job.chunks, before.Keys);
      EmbeddedAfterAll(store, job, embed);
      EmbeddedSplit(before, now, pending, job.batchSize > 0);
    }
  }

  lemma EmbeddedSplit(before: map<ChunkId, Option<Vector>>, now: map<ChunkId, Option<Vector>>, pending: set<ChunkId>,
                      takes: bool)
    requires now.Keys == before.Keys + pending && before.Keys !! pending
    requires forall id :: Embedded(now, id) <==> Embedded(before, id) || (takes && id in pending)
    ensures AllEmbedded(now) <==> AllEmbedded(before) && (takes || pending == {})
  {
    if AllEmbedded(now) {
      forall id | id in before ensures before[id].Some? { assert Embedded(now, id); }
      assert !takes ==> forall id :: id in pending ==> id in now && !Embedded(now, id);
    }
    if AllEmbedded(before) && (takes || pending == {}) {
      forall id | id in now ensures now[id].Some? {
        if id in before { assert Embedded(before, id); }
        assert Embedded(now, id);
      }
    }
  }

  ghost predicate Pointwise(embed: Provider, one: string -> Vector) {
    forall texts, i :: embed(texts).Some? && 0 <= i < |texts| && i < |embed(texts).value| ==>
      embed(texts).value[i] == one(texts[i])
  }

  lemma BatchMatchesTexts(g: nat, batch: seq<Chunk>, embed: Provider, one: string -> Vector)
    requires OneBatch(g, batch, embed).1 && Pointwise(embed, one)
    ensures var here := OneBatch(g, batch, embed).0;
            && |here| == |batch|
            && forall i :: 0 <= i < |here| ==> here[i] == Embed(g, batch[i].id, one(batch[i].draft.text))
  {
    forall i | 0 <= i < |batch|
      ensures OneBatch(g, batch, embed).0[i] == Embed(g, batch[i].id, one(batch[i].draft.text))
    {
      assert TextsOf(batch)[i] == batch[i].draft.text;
    }
  }

  /** The writes give the pending chunks from `start` on the vectors of their own texts. */
  ghost predicate Matches(g: nat, pending: seq<Chunk>, start: nat, writes: seq<Write>, one: string -> Vector) {
    && start + |writes| <= |pending|
    && forall i :: 0 <= i < |writes| ==>
         writes[i] == Embed(g, pending[start + i].id, one(pending[start + i].draft.text))
  }

  lemma MatchJoin(g: nat, pending: seq<Chunk>, start: nat, here: seq<Write>, rest: seq<Write>, one: string -> Vector)
    requires Matches(g, pending, start, here, one) && Matches(g, pending, start + |here|, rest, one)
    ensures Matches(g, pending, start, here + rest, one)
  {
    var all := here + rest;
    forall i | 0 <= i < |all|
      ensures all[i] == Embed(g, pending[start + i].id, one(pending[start + i].draft.text))
    {
      if i >= |here| { assert all[i] == rest[i - |here|]; }
    }
  }

  lemma BatchMatches(g: nat, pending: seq<Chunk>, start: nat, size: nat, embed: Provider, one: string -> Vector)
    requires size >= 1 && start < |pending| && Pointwise(embed, one)
    requires OneBatch(g, BatchAt(pending, start, size), embed).1
    ensures var here := OneBatch(g, BatchAt(pending, start, size), embed).0;
            |here| == Smaller(size, |pending| - start) && Matches(g, pending, start, here, one)
  {
    BatchMatchesTexts(g, BatchAt(pending, start, size), embed, one);
  }

  /** Each chunk gets the vector of its own text. */
  lemma {:induction false} BatchesMatchTexts(g: nat, pending: seq<Chunk>, start: nat, size: nat, embed: Provider,
                                             one: string -> Vector)
    requires size >= 1 && start <= |pending| && Batches(g, pending, start, size, embed).1 && Pointwise(embed, one)
    ensures var writes := Batches(g, pending, start, size, embed).0;
            |writes| == |pending| - start && Matches(g, pending, start, writes, one)
    decreases |pending| - start
  {
    if start < |pending| {
      BatchMatches(g, pending, start, size, embed, one);
      if start + size < |pending| {
        BatchesMatchTexts(g, pending, start + size, size, embed, one);
        MatchJoin(g, pending, start, OneBatch(g, BatchAt(pending, start, size), embed).0,
                  Batches(g, pending, start + size, size, embed).0, one);
      }
    }
  }

  // ------------------------------------------------------------- stored vectors

  /** What a list of vector writes leaves in a row: the vector they all give it, or what was there. */
  lemma {:induction false} EmbedsVector(store: Store, writes: seq<Write>, g: nat, id: ChunkId, vector: Vector)
    requires g in store && forall w :: w in writes ==> w.Embed? && w.generation == g
    requires forall w :: w in writes && w.id == id ==> w.vector == vector
    ensures id in store[g].rows ==>
              && id in Rows(ApplyAll(store, writes), g)
              && Rows(ApplyAll(store, writes), g)[id]
                 == if Attaches(writes, id) then Some(vector) else store[g].rows[id]
    decreases |writes|
  {
    if writes != [] {
      var n := |writes| - 1;
      assert writes[n] in writes;
      KeepsRow(store, writes[..n], g);
      EmbedsVector(store, writes[..n], g, id, vector);
      assert Attaches(writes, id) <==> Attaches(writes[..n], id) || writes[n].id == id by {
        if k: nat :| k < n && writes[k].Embed? && writes[k].id == id { assert writes[..n][k].id == id; }
      }
    }
  }

  lemma InsertedRow(created: Store, g: nat, pending: seq<Chunk>, id: ChunkId)
    requires g in created
    ensures var rows := Rows(ApplyAll(created, InsertWrites(g, pending)), g);
            && (id in rows <==> id in Rows(created, g) || id in SetOf(ChunkIds(pending)))
            && (id in rows ==> rows[id] == if id in Rows(created, g) then Rows(created, g)[id] else None)
  {
    var writes := InsertWrites(g, pending);
    if pending != [] {
      assert writes[..0] == [];
      assert ApplyAll(created, writes) == Apply(ApplyAll(created, []), writes[0]);
    }
  }

  /** All vectors written for a chunk are those of its text. */
  lemma PhaseVectors(g: nat, batchSize: int, pending: seq<Chunk>, embed: Provider, one: string -> Vector, c: Chunk)
    requires EmbedPhase(g, batchSize, pending, embed).1 && Pointwise(embed, one)
    requires forall p :: p in pending && p.id == c.id ==> p == c
    ensures forall w :: w in EmbedPhase(g, batchSize, pending, embed).0 && w.id == c.id ==>
              w.vector == one(c.draft.text)
  {
    if batchSize > 0 {
      BatchesMatchTexts(g, pending, 0, batchSize, embed, one);
      var writes := Batches(g, pending, 0, batchSize, embed).0;
      forall w | w in writes && w.id == c.id ensures w.vector == one(c.draft.text) {
        var k :| 0 <= k < |writes| && writes[k] == w;
        assert pending[k] in pending;
      }
    }
  }

  lemma OneChunk(chunks: seq<Chunk>, existing: set<ChunkId>, c: Chunk)
    requires DistinctChunkIds(chunks) && c in chunks
    ensures forall p :: p in Pending(chunks, existing) && p.id == c.id ==> p == c
    ensures c.id in SetOf(ChunkIds(Pending(chunks, existing))) <==> c.id !in existing
  {
    PendingIs(chunks, existing);
    var k :| 0 <= k < |chunks| && chunks[k] == c;
    assert ChunkIds(chunks)[k] == c.id;
    forall p | p in Pending(chunks, existing) && p.id == c.id ensures p == c {
      var i :| 0 <= i < |chunks| && chunks[i] == p;
    }
  }

  /** The rows of a generation after a run that swaps, row by row. */
  lemma RowAfter(store: Store, job: Work, embed: Provider, id: ChunkId, vector: Vector)
    requires Script(store, job, embed).1.Done? && !AlreadyReady(store, job.generation)
    requires var pending := Pending(job.chunks, Rows(store, job.generation).Keys);
             var phase := EmbedPhase(job.generation, job.batchSize, pending, embed).0;
             forall w :: w in phase && w.id == id ==> w.vector == vector
    ensures var before := Rows(store, job.generation);
            var now := Rows(ApplyAll(store, Script(store, job, embed).0), job.generation);
            var pending := SetOf(ChunkIds(Pending(job.chunks, before.Keys)));
            id in before || id in pending ==>
              && id in now
              && now[id] == if id in pending && job.batchSize > 0 then Some(vector)
                            else if id in before then before[id] else None
  {
    DoneParts(store, job, embed);
    var g := job.generation;
    var created := ApplyAll(store, CreateWrites(store, g, job.version));
    var pending := Pending(job.chunks, Rows(created, g).Keys);
    var stored := ApplyAll(created, InsertWrites(g, pending));
    var phase := EmbedPhase(g, job.batchSize, pending, embed).0;
    InsertedRow(created, g, pending, id);
    KeepsRow(created, InsertWrites(g, pending), g);
    EmbedsVector(stored, phase, g, id, vector);
    AttachesPending(g, job.batchSize, pending, embed, id);
    SwapRows(ApplyAll(stored, phase), g, |job.chunks|);
  }

  /**
   After a completed run each chunk of the job that was not stored before has the vector of its own
   text, or none if no batch is taken.
   */
  lemma VectorsOfNew(store: Store, job: Work, embed: Provider, one: string -> Vector, c: Chunk)
    requires Script(store, job, embed).1.Done? && !AlreadyReady(store, job.generation)
    requires Pointwise(embed, one) && DistinctChunkIds(job.chunks) && c in job.chunks
    requires c.id !in Rows(store, job.generation)
    ensures var now := Rows(ApplyAll(store, Script(store, job, embed).0), job.generation);
            c.id in now && now[c.id] == if job.batchSize > 0 then Some(one(c.draft.text)) else None
  {
    DoneParts(store, job, embed);
    var g := job.generation;
    var pending := Pending(job.chunks, Rows(store, g).Keys);
    OneChunk(job.chunks, Rows(store, g).Keys, c);
    PhaseVectors(g, job.batchSize, pending, embed, one, c);
    RowAfter(store, job, embed, c.id, one(c.draft.text));
  }

  /** And each chunk that was stored before keeps the vector it had, or had not, whatever the provider does. */
  lemma VectorsStay(store: Store, job: Work, embed: Provider, id: ChunkId)
    requires Script(store, job, embed).1.Done? && id in Rows(store, job.generation)
    ensures var now := Rows(ApplyAll(store, Script(store, job, embed).0), job.generation);
            id in now && now[id] == Rows(store, job.generation)[id]
  {
    if !AlreadyReady(store, job.generation) {
      DoneParts(store, job, embed);
      var g := job.generation;
      var pending := Pending(job.chunks, Rows(store, g).Keys);
      PendingIs(job.chunks, Rows(store, g).Keys);
      AttachesPending(g, job.batchSize, pending, embed, id);
      var phase := EmbedPhase(g, job.batchSize, pending, embed).0;
      forall w | w in phase ensures w.id != id {
        var k :| 0 <= k < |phase| && phase[k] == w;
      }
      RowAfter(store, job, embed, id, []);
    }
  }

  /**
   A fresh build that is not interrupted ends ready, with exactly its chunks stored and a vector
   for each of them: its own text's, if the provider works text by text.
   */
  lemma FreshBuild(store: Store, job: Work, embed: Provider)
    requires job.refused.None? && job.batchSize > 0 && job.generation !in store && DistinctChunkIds(job.chunks)
    requires EmbedPhase(job.generation, job.batchSize, job.chunks, embed).1
    ensures var now := ApplyAll(store, Script(store, job, embed).0);
            && Script(store, job, embed).1 == Done(|job.chunks|)
            && Rows(now, job.generation).Keys == SetOf(ChunkIds(job.chunks)) && AllEmbedded(Rows(now, job.generation))
    ensures var now := ApplyAll(store, Script(store, job, embed).0);
            && job.generation in now && now[job.generation].status.Ready?
            && now[job.generation].version == job.version && now[job.generation].count == |job.chunks|
    ensures forall one, c :: Pointwise(embed, one) && c in job.chunks ==>
              var rows := Rows(ApplyAll(store, Script(store, job, embed).0), job.generation);
              c.id in rows && rows[c.id] == Some(one(c.draft.text))
  {
    var want := ChunkIds(job.chunks);
    FreshEnds(store, job, embed);
    IdsDistinct(job.chunks);
    DoneIsComplete(store, job, embed, want);
    AllEmbeddedExactly(store, job, embed, want);
    GenerationAfter(store, job, embed);
    forall one: string -> Vector, c | Pointwise(embed, one) && c in job.chunks
      ensures var rows := Rows(ApplyAll(store, Script(store, job, embed).0), job.generation);
              c.id in rows && rows[c.id] == Some(one(c.draft.text))
    {
      VectorsOfNew(store, job, embed, one, c);
    }
  }

  lemma FreshEnds(store: Store, job: Work, embed: Provider)
    requires job.refused.None? && job.batchSize > 0 && job.generation !in store
    requires EmbedPhase(job.generation, job.batchSize, job.chunks, embed).1
    ensures Script(store, job, embed).1 == Done(|job.chunks|)
  {
    PendingIs(job.chunks, {});
    assert Rows(store, job.generation).Keys == {};
  }

  // -------------------------------------------------------------------- status

  /**
   A completed run leaves its generation ready exactly when it was not superseded or stale before,
   and leaves no other generation of the source version ready in any case but an early return. So
   re-running a superseded generation leaves its source version without a ready one.
   */
  lemma ReadyExactly(store: Store, job: Work, embed: Provider)
    requires Script(store, job, embed).1.Done?
    ensures var g, now := job.generation, ApplyAll(store, Script(store, job, embed).0);
            && g in now
            && (now[g].status.Ready? <==> g !in store || !(store[g].status.Superseded? || store[g].status.Stale?))
            && (!AlreadyReady(store, job.generation) ==>
                  forall h :: h in now && h != g && now[h].version == now[g].version ==> !now[h].status.Ready?)
  {
    if !AlreadyReady(store, job.generation) {
      GenerationAfter(store, job, embed);
    }
  }

  /** The transactions of a run before its swap leave every other generation, and the version and count of its own. */
  lemma {:induction false} MildKeeps(store: Store, writes: seq<Write>, g: nat)
    requires g in store && Mild(writes, g)
    ensures var now := ApplyAll(store, writes);
            && now.Keys == store.Keys && (forall h :: h in store && h != g ==> now[h] == store[h])
            && now[g].version == store[g].version && now[g].count == store[g].count
            && now[g].status == store[g].status
    decreases |writes|
  {
    if writes != [] {
      assert writes[|writes| - 1] in writes;
      MildKeeps(store, writes[..|writes| - 1], g);
    }
  }

  lemma CreatedOthers(store: Store, g: nat, version: nat)
    ensures var now := ApplyAll(store, CreateWrites(store, g, version));
            && now.Keys == store.Keys + {g} && (forall h :: h in store && h != g ==> now[h] == store[h])
            && now[g].version == (if g in store then store[g].version else version)
            && now[g].count == (if g in store then store[g].count else 0)
            && now[g].status == (if g !in store || store[g].status.Failed? then Building else store[g].status)
  {
    var create := CreateWrites(store, g, version);
    if create != [] {
      assert create[..0] == [];
      assert ApplyAll(store, create) == Apply(ApplyAll(store, []), create[0]);
    }
  }

  /**
   The generations after a completed run: its own has its first source version, is ready with the number
   of chunks unless it was superseded or stale; of the others only the ready ones of that version change.
   */
  lemma GenerationAfter(store: Store, job: Work, embed: Provider)
    requires Script(store, job, embed).1.Done? && !AlreadyReady(store, job.generation)
    ensures var g, now := job.generation, ApplyAll(store, Script(store, job, embed).0);
            var version := if g in store then store[g].version else job.version;
            && now.Keys == store.Keys + {g} && now[g].version == version
            && (if g in store && (store[g].status.Superseded? || store[g].status.Stale?)
                then now[g].status == store[g].status && now[g].count == store[g].count
                else now[g].status.Ready? && now[g].count == |job.chunks|)
            && (forall h :: h in store && h != g ==>
                  now[h] == if store[h].version == version && store[h].status.Ready?
                            then store[h].(status := Superseded) else store[h])
  {
    DoneParts(store, job, embed);
    var g := job.generation;
    var created := ApplyAll(store, CreateWrites(store, g, job.version));
    var pending := Pending(job.chunks, Rows(created, g).Keys);
    var insert, phase := InsertWrites(g, pending), EmbedPhase(g, job.batchSize, pending, embed).0;
    CreatedOthers(store, g, job.version);
    MildKeeps(created, insert, g);
    MildKeeps(ApplyAll(created, insert), phase, g);
  }

  /** The provider answers this batch with one vector for each text. */
  ghost predicate AnsweredInFull(batch: seq<Chunk>, embed: Provider) {
    embed(TextsOf(batch)).Some? && |embed(TextsOf(batch)).value| == |batch|
  }

  /** Each batch from `start` on, taken `size` at a time, is answered in full. */
  ghost predicate AllAnswered(pending: seq<Chunk>, start: nat, size: nat, embed: Provider) {
    forall k: nat :: BatchAnswered(pending, start, size, embed, k)
  }

  ghost predicate BatchAnswered(pending: seq<Chunk>, start: nat, size: nat, embed: Provider, k: nat) {
    var from := start + k * size;
    var to := if from + size <= |pending| then from + size else |pending|;
    from < |pending| ==> AnsweredInFull(pending[from..to], embed)
  }

  lemma NextBatch(pending: seq<Chunk>, start: nat, size: nat, embed: Provider, k: nat)
    ensures BatchAnswered(pending, start, size, embed, k + 1) <==> BatchAnswered(pending, start + size, size, embed, k)
  {
    assert start + (k + 1) * size == (start + size) + k * size;
  }

  lemma FirstBatch(pending: seq<Chunk>, start: nat, size: nat, embed: Provider)
    requires start < |pending|
    ensures BatchAnswered(pending, start, size, embed, 0) <==> AnsweredInFull(BatchAt(pending, start, size), embed)
  {
  }

  /** The embedding loop reaches its end exactly when every batch is answered in full. */
  lemma {:induction false} BatchesFine(g: nat, pending: seq<Chunk>, start: nat, size: nat, embed: Provider)
    requires size >= 1
    ensures Batches(g, pending, start, size, embed).1 <==> AllAnswered(pending, start, size, embed)
    decreases |pending| - start
  {
    if start < |pending| {
      FirstBatch(pending, start, size, embed);
      BatchesFine(g, pending, start + size, size, embed);
      AnsweredFrom(pending, start, size, embed);
    } else {
      forall k: nat ensures BatchAnswered(pending, start, size, embed, k) {
        assert k * size >= 0;
      }
    }
  }

  lemma AnsweredFrom(pending: seq<Chunk>, start: nat, size: nat, embed: Provider)
    ensures AllAnswered(pending, start, size, embed) <==>
            BatchAnswered(pending, start, size, embed, 0) && AllAnswered(pending, start + size, size, embed)
  {
    if AllAnswered(pending, start, size, embed) {
      var next := start + size;
      forall k: nat ensures BatchAnswered(pending, next, size, embed, k) {
        NextBatch(pending, start, size, embed, k);
      }
    }
    if BatchAnswered(pending, start, size, embed, 0) && AllAnswered(pending, start + size, size, embed) {
      forall k: nat ensures BatchAnswered(pending, start, size, embed, k) {
        if k > 0 { NextBatch(pending, start, size, embed, k - 1); }
      }
    }
  }

  /**
   A run ends well exactly when its generation is ready already, or it is not refused, the batch size is
   not zero, and the provider answers every batch of what was not stored in full; a negative size takes
   no batch. A zero size and an incomplete answer end it with an error of their own.
   */
  lemma DoneExactly(store: Store, job: Work, embed: Provider)
    requires !AlreadyReady(store, job.generation) && job.refused.None?
    ensures var end := Script(store, job, embed).1;
            var pending := Pending(job.chunks, Rows(store, job.generation).Keys);
            && (end == Raised(ZeroBatch) <==> job.batchSize == 0)
            && (end == Raised(EmbeddingFailed) <==>
                  job.batchSize > 0 && !AllAnswered(pending, 0, job.batchSize, embed))
            && (end == Done(|job.chunks|) <==>
                  job.batchSize < 0 || (job.batchSize > 0 && AllAnswered(pending, 0, job.batchSize, embed)))
  {
    if job.batchSize > 0 {
      BatchesFine(job.generation, Pending(job.chunks, Rows(store, job.generation).Keys), 0, job.batchSize, embed);
    }
  }

  /** A generation marked failed, even a ready one, is built again, and a run that completes makes it ready. */
  lemma FailedIsRebuilt(store: Store, job: Work, embed: Provider)
    requires job.generation in store
    requires Script(Apply(store, Fail(job.generation)), job, embed).1.Done?
    ensures var failed := Apply(store, Fail(job.generation));
            var now := ApplyAll(failed, Script(failed, job, embed).0);
            && job.generation in now && now[job.generation].status.Ready?
            && now[job.generation].count == |job.chunks|
            && Rows(store, job.generation).Keys <= Rows(now, job.generation).Keys
  {
    var failed := Apply(store, Fail(job.generation));
    GenerationAfter(failed, job, embed);
    RowsStay(failed, Script(failed, job, embed).0, job.generation);
  }

  /**
   A run that finds its generation unready is refused exactly without a document, with one of another
   source version, or with a token limit below one, in this order; it has then written no chunk row.
   */
  lemma RefusedExactly(store: Store, job: Job, embed: Provider)
    requires JobOk(job) && !AlreadyReady(store, job.generation)
    ensures var (writes, end) := Script(store, WorkOf(job), embed);
            && (end == Raised(NoDocument) <==> job.document.None?)
            && (end == Raised(OtherVersion) <==>
                  job.document.Some? && job.document.value.version != job.version)
            && (end == Raised(BadProfile) <==>
                  && job.document.Some? && job.document.value.version == job.version
                  && job.profile.maxTokens < 1)
            && (!Buildable(job) ==> Rows(ApplyAll(store, writes), job.generation) == Rows(store, job.generation))
  {
    RowsAfterCreate(store, WorkOf(job));
  }

  /**
   A crash after the rows are stored and before any vector is: the run that resumes finds nothing
   pending, and makes the generation ready with no chunk embedded at all.
   */
  lemma InterruptedLeavesUnembedded(store: Store, job: Work, embed: Provider)
    requires job.refused.None? && job.batchSize != 0 && job.generation !in store && job.chunks != []
    requires EmbedPhase(job.generation, job.batchSize, job.chunks, embed).1
    ensures var g, crashed := job.generation, StoreAfter(store, job, embed, 2);
            && Script(crashed, job, embed).1 == Done(|job.chunks|)
            && var now := ApplyAll(crashed, Script(crashed, job, embed).0);
               && g in now && now[g].status.Ready? && Rows(now, g).Keys == SetOf(ChunkIds(job.chunks))
               && forall id :: id in Rows(now, g) ==> Rows(now, g)[id].None?
  {
    var g, chunks := job.generation, job.chunks;
    CrashedRows(store, job, embed);
    var crashed := StoreAfter(store, job, embed, 2);
    PendingIs(chunks, Rows(crashed, g).Keys);
    ResumeEnds(crashed, job, embed);
    NothingEmbedded(crashed, job, embed);
    ReadyExactly(crashed, job, embed);
  }

  lemma NothingEmbedded(crashed: Store, job: Work, embed: Provider)
    requires Script(crashed, job, embed).1.Done? && !AlreadyReady(crashed, job.generation)
    requires job.refused.None? && Rows(crashed, job.generation).Keys == SetOf(ChunkIds(job.chunks))
    requires forall id :: id in Rows(crashed, job.generation) ==> Rows(crashed, job.generation)[id].None?
    ensures var now := ApplyAll(crashed, Script(crashed, job, embed).0);
            && Rows(now, job.generation).Keys == SetOf(ChunkIds(job.chunks))
            && forall id :: id in Rows(now, job.generation) ==> Rows(now, job.generation)[id].None?
  {
    var g := job.generation;
    var before, now := Rows(crashed, g), Rows(ApplyAll(crashed, Script(crashed, job, embed).0), g);
    NothingPending(job.chunks, before.Keys);
    forall id: ChunkId ensures now.Keys == before.Keys && (id in now ==> now[id].None?) {
      EmbeddedAfter(crashed, job, embed, id);
      assert !Embedded(now, id);
    }
  }

  lemma {:induction false} NothingPending(chunks: seq<Chunk>, existing: set<ChunkId>)
    requires SetOf(ChunkIds(chunks)) <= existing
    ensures Pending(chunks, existing) == []
  {
    PendingIs(chunks, existing);
    NoIds(Pending(chunks, existing));
  }

  lemma NoIds(chunks: seq<Chunk>)
    ensures SetOf(ChunkIds(chunks)) == {} ==> chunks == []
  {
    assert chunks != [] ==> ChunkIds(chunks)[0] in SetOf(ChunkIds(chunks));
  }

  /** With nothing pending a run writes no vector and ends well. */
  lemma ResumeEnds(store: Store, job: Work, embed: Provider)
    requires job.refused.None? && job.batchSize != 0 && !AlreadyReady(store, job.generation)
    requires SetOf(ChunkIds(job.chunks)) <= Rows(store, job.generation).Keys
    ensures Script(store, job, embed).1 == Done(|job.chunks|)
  {
    NothingPending(job.chunks, Rows(store, job.generation).Keys);
  }

  lemma StoreTwo(store: Store, g: nat, version: nat, ids: seq<ChunkId>)
    requires g !in store
    ensures var now := ApplyAll(store, [Create(g, version), Insert(g, ids)]);
            && g in now && now[g].status.Building? && Rows(now, g).Keys == SetOf(ids)
            && forall id :: id in Rows(now, g) ==> Rows(now, g)[id].None?
  {
    var two := [Create(g, version), Insert(g, ids)];
    assert two[..1][..0] == [] && two[..1] == [Create(g, version)];
    assert ApplyAll(store, two[..1]) == Apply(ApplyAll(store, []), Create(g, version));
    assert ApplyAll(store, two) == Apply(ApplyAll(store, two[..1]), two[1]);
    assert InsertRows(map[], ids).Keys == SetOf(ids);
  }

  lemma CrashedRows(store: Store, job: Work, embed: Provider)
    requires job.refused.None? && job.batchSize != 0 && job.generation !in store && job.chunks != []
    ensures var g, crashed := job.generation, StoreAfter(store, job, embed, 2);
            && g in crashed && crashed[g].status.Building?
            && Rows(crashed, g).Keys == SetOf(ChunkIds(job.chunks))
            && forall id :: id in Rows(crashed, g) ==> Rows(crashed, g)[id].None?
  {
    var g, chunks := job.generation, job.chunks;
    PendingIs(chunks, {});
    assert Rows(store, g).Keys == {};
    var writes := Script(store, job, embed).0;
    assert writes[..2] == [Create(g, job.version), Insert(g, ChunkIds(chunks))];
    StoreTwo(store, g, job.version, ChunkIds(chunks));
  }
}
