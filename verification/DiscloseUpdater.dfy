/**
  The disclose flags updater: the query's result is cut into chunks, one worker per chunk updates its contacts in a
  transaction of its own, and when all workers have exited their transactions are committed one after another.
 */
module DiscloseUpdater {
  import opened Options
  import opened DiscloseQuery

  type ContactId = nat
  type Registry = map<ContactId, Contact>

  datatype Task = Task(id: ContactId, hideAllowed: bool)

  /** The rows a query returns, in any order, each contact once. */
  ghost predicate IsResult(db: Registry, s: Settings, tasks: seq<Task>) {
    && IsRows(db, tasks)
    && forall id :: id in db ==> (Selects(Joined(Terms(s)), db[id]) <==> id in Ids(tasks, 0, |tasks|))
  }

  ghost predicate IsRows(db: Registry, tasks: seq<Task>) {
    && (forall k :: 0 <= k < |tasks| ==> IsRow(db, tasks[k]))
    && (forall j, k :: 0 <= j < k < |tasks| ==> tasks[j].id != tasks[k].id)
  }

  predicate IsRow(db: Registry, t: Task) {
    t.id in db && t.hideAllowed == db[t.id].HideAddressAllowed()
  }

  function Ids(tasks: seq<Task>, begin: nat, end: nat): set<ContactId>
    requires end <= |tasks|
  {
    set k | begin <= k < end :: tasks[k].id
  }

  /** What the update makes of a contact. */
  function Target(db: Registry, s: Settings, id: ContactId): Contact
    requires id in db
  {
    Updated(db[id], s, db[id].HideAddressAllowed())
  }

  /** The same update of every contact, one at a time. */
  function Pointwise(db: Registry, s: Settings): Registry {
    map id | id in db :: Target(db, s, id)
  }

  function Writes(db: Registry, s: Settings, ids: set<ContactId>): Registry
    requires ids <= db.Keys
  {
    map id | id in ids :: Target(db, s, id)
  }

  // ---- chunks ----

  datatype Range = Range(begin: nat, end: nat)

  /** Non-empty consecutive ranges from 0 up to the count. */
  ghost predicate Partition(ranges: seq<Range>, count: nat) {
    && (forall k :: 0 <= k < |ranges| ==> ranges[k].begin < ranges[k].end <= count)
    && (forall k :: 0 < k < |ranges| ==> ranges[k - 1].end == ranges[k].begin)
    && (ranges == [] ==> count == 0)
    && (ranges != [] ==> ranges[0].begin == 0 && ranges[|ranges| - 1].end == count)
  }

  method SplitTasks(count: nat, threadCount: int) returns (ranges: seq<Range>)
    requires 1 <= threadCount < 0x8000
    ensures Partition(ranges, count)
    ensures |ranges| == if count >= threadCount then threadCount else if count > 0 then 1 else 0
    ensures forall k :: 0 <= k < |ranges| - 1 ==> ranges[k].end - ranges[k].begin == count / threadCount
  {
    QuotientFits(count, threadCount);
    ranges := SplitBy(count, threadCount, count / threadCount);
  }

  method SplitBy(count: nat, threadCount: nat, chunkSize: nat) returns (ranges: seq<Range>)
    requires 1 <= threadCount && Product(threadCount, chunkSize) <= count
    ensures Partition(ranges, count)
    ensures |ranges| == if chunkSize > 0 then threadCount else if count > 0 then 1 else 0
    ensures forall k :: 0 <= k < |ranges| - 1 ==> ranges[k].end - ranges[k].begin == chunkSize
  {
    ranges := [];
    var chunkBegin := 0;
    if chunkSize > 0 {
      ranges, chunkBegin := EqualChunks(count, threadCount, chunkSize);
    }
    if count - chunkBegin > 0 {
      LastChunk(ranges, chunkSize, chunkBegin, count);
      ranges := ranges + [Range(chunkBegin, count)];
    }
  }

  method EqualChunks(count: nat, threadCount: nat, chunkSize: nat) returns (ranges: seq<Range>, chunkBegin: nat)
    requires 1 <= threadCount && Product(threadCount, chunkSize) <= count && chunkSize > 0
    ensures |ranges| == threadCount - 1 && Chunks(ranges, chunkSize, chunkBegin) && chunkBegin < count
  {
    ranges, chunkBegin := [], 0;
    var i := 0;
    while i < threadCount - 1
      invariant 0 <= i <= threadCount - 1 && |ranges| == i
      invariant chunkBegin + Product(threadCount - i, chunkSize) <= count
      invariant Chunks(ranges, chunkSize, chunkBegin)
    {
      var chunkEnd := chunkBegin + chunkSize;
      OneChunkMore(ranges, chunkSize, chunkBegin);
      ranges := ranges + [Range(chunkBegin, chunkEnd)];
      chunkBegin := chunkEnd;
      i := i + 1;
    }
  }

  /** Consecutive ranges of one size up to the given end. */
  ghost predicate Chunks(ranges: seq<Range>, size: nat, end: nat) {
    && (forall k :: 0 <= k < |ranges| ==> ranges[k].end == ranges[k].begin + size <= end)
    && (forall k :: 0 < k < |ranges| ==> ranges[k - 1].end == ranges[k].begin)
    && (if ranges == [] then end == 0 else ranges[0].begin == 0 && ranges[|ranges| - 1].end == end)
  }

  lemma OneChunkMore(ranges: seq<Range>, size: nat, end: nat)
    requires Chunks(ranges, size, end)
    ensures Chunks(ranges + [Range(end, end + size)], size, end + size)
  {
  }

  lemma LastChunk(ranges: seq<Range>, size: nat, end: nat, count: nat)
    requires Chunks(ranges, size, end) && end < count && (ranges != [] ==> size > 0)
    ensures Partition(ranges + [Range(end, count)], count)
  {
  }

  ghost function Product(n: nat, size: nat): nat {
    if n == 0 then 0 else size + Product(n - 1, size)
  }

  lemma {:induction false} ProductIs(n: nat, size: nat)
    ensures Product(n, size) == n * size
  {
    if n > 0 {
      ProductIs(n - 1, size);
      assert n * size == size + (n - 1) * size;
    }
  }

  lemma QuotientFits(count: nat, threads: nat)
    requires threads > 0
    ensures Product(threads, count / threads) <= count
    ensures count / threads > 0 <==> count >= threads
  {
    ProductIs(threads, count / threads);
  }

  // ---- workers ----

  /** Failing aborts the database transaction, or leaves it open with what was done so far. */
  datatype Status = Running | Finished | Failed(aborted: bool)

  datatype Worker = Worker(range: Range, doneCount: nat, pending: Registry, status: Status)
  {
    predicate Exited() { !status.Running? }

    function Commits(): Registry {
      if status == Failed(true) then map[] else pending
    }
  }

  datatype Event = Work(worker: nat) | Break(worker: nat, aborts: bool)

  function Row(db: Registry, pending: Registry, id: ContactId): Contact
    requires id in db
  {
    if id in pending then pending[id] else db[id]
  }

  /** One turn of a worker's loop, or its end. */
  function WorkerStep(db: Registry, s: Settings, tasks: seq<Task>, w: Worker): Worker {
    var next := w.range.begin + w.doneCount;
    if w.Exited() then w
    else if next >= w.range.end then w.(status := Finished)
    else if next >= |tasks| || tasks[next].id !in db then w.(status := Failed(false))
    else
      var t := tasks[next];
      w.(pending := w.pending[t.id := Updated(Row(db, w.pending, t.id), s, t.hideAllowed)],
        doneCount := w.doneCount + 1)
  }

  function EventStep(db: Registry, s: Settings, tasks: seq<Task>, ws: seq<Worker>, e: Event): seq<Worker> {
    if e.worker >= |ws| || ws[e.worker].Exited() then ws
    else
      match e
      case Work(i) => ws[i := WorkerStep(db, s, tasks, ws[i])]
      case Break(i, aborts) => ws[i := ws[i].(status := Failed(aborts))]
  }

  function RunWorkers(db: Registry, s: Settings, tasks: seq<Task>, ws: seq<Worker>, schedule: seq<Event>): seq<Worker>
    decreases |schedule|
  {
    if schedule == [] then ws else RunWorkers(db, s, tasks, EventStep(db, s, tasks, ws, schedule[0]), schedule[1..])
  }

  function Started(ranges: seq<Range>): seq<Worker> {
    seq(|ranges|, k requires 0 <= k < |ranges| => Worker(ranges[k], 0, map[], Running))
  }

  /** The done counter and the open transaction of a worker always agree. */
  ghost predicate WorkerGood(db: Registry, s: Settings, tasks: seq<Task>, w: Worker) {
    && w.range.begin + w.doneCount <= w.range.end <= |tasks|
    && Ids(tasks, w.range.begin, w.range.begin + w.doneCount) <= db.Keys
    && w.pending == Writes(db, s, Ids(tasks, w.range.begin, w.range.begin + w.doneCount))
    && (w.status.Finished? ==> w.range.begin + w.doneCount == w.range.end)
  }

  ghost predicate WorkersGood(db: Registry, s: Settings, tasks: seq<Task>, ranges: seq<Range>, ws: seq<Worker>) {
    && |ws| == |ranges|
    && forall k :: 0 <= k < |ws| ==> ws[k].range == ranges[k] && WorkerGood(db, s, tasks, ws[k])
  }

  lemma IdsGrow(tasks: seq<Task>, begin: nat, end: nat)
    requires begin <= end < |tasks|
    ensures Ids(tasks, begin, end + 1) == Ids(tasks, begin, end) + {tasks[end].id}
  {
  }

  lemma WriteOneMore(db: Registry, s: Settings, ids: set<ContactId>, id: ContactId)
    requires ids <= db.Keys && id in db
    ensures Writes(db, s, ids + {id}) == Writes(db, s, ids)[id := Target(db, s, id)]
  {
  }

  lemma WriteMore(db: Registry, s: Settings, ids: set<ContactId>, more: set<ContactId>)
    requires ids <= db.Keys && more <= db.Keys
    ensures db + Writes(db, s, ids) + Writes(db, s, more) == db + Writes(db, s, ids + more)
  {
  }

  lemma WorkerStepKeeps(db: Registry, s: Settings, tasks: seq<Task>, w: Worker)
    requires IsRows(db, tasks) && WorkerGood(db, s, tasks, w)
    ensures WorkerGood(db, s, tasks, WorkerStep(db, s, tasks, w))
  {
    var next := w.range.begin + w.doneCount;
    if !w.Exited() && next < w.range.end {
      TurnWrites(db, s, tasks, w);
      IdsGrow(tasks, w.range.begin, next);
      WriteOneMore(db, s, Ids(tasks, w.range.begin, next), tasks[next].id);
    }
  }

  /** A turn writes what the update makes of the contact as it was in the database. */
  lemma TurnWrites(db: Registry, s: Settings, tasks: seq<Task>, w: Worker)
    requires IsRows(db, tasks) && WorkerGood(db, s, tasks, w)
    requires !w.Exited() && w.range.begin + w.doneCount < w.range.end
    ensures var t := tasks[w.range.begin + w.doneCount];
      && t.id in db
      && WorkerStep(db, s, tasks, w) ==
           w.(pending := w.pending[t.id := Target(db, s, t.id)], doneCount := w.doneCount + 1)
  {
    var next := w.range.begin + w.doneCount;
    assert IsRow(db, tasks[next]);
    assert tasks[next].id !in Ids(tasks, w.range.begin, next);
    assert Row(db, w.pending, tasks[next].id) == db[tasks[next].id];
  }

  lemma EventKeeps(db: Registry, s: Settings, tasks: seq<Task>, ranges: seq<Range>, ws: seq<Worker>, e: Event)
    requires IsRows(db, tasks) && WorkersGood(db, s, tasks, ranges, ws)
    ensures WorkersGood(db, s, tasks, ranges, EventStep(db, s, tasks, ws, e))
  {
    if e.worker < |ws| && !ws[e.worker].Exited() {
      var w := ws[e.worker];
      WorkerStepKeeps(db, s, tasks, w);
      ReplacedKeeps(db, s, tasks, ranges, ws, e.worker, if e.Work? then WorkerStep(db, s, tasks, w)
        else w.(status := Failed(e.aborts)));
    }
  }

  lemma ReplacedKeeps(db: Registry, s: Settings, tasks: seq<Task>, ranges: seq<Range>, ws: seq<Worker>, i: nat,
      w: Worker)
    requires WorkersGood(db, s, tasks, ranges, ws) && i < |ws|
    requires w.range == ws[i].range && WorkerGood(db, s, tasks, w)
    ensures WorkersGood(db, s, tasks, ranges, ws[i := w])
  {
  }

  lemma {:induction false} RunKeeps(db: Registry, s: Settings, tasks: seq<Task>, ranges: seq<Range>, ws: seq<Worker>,
      schedule: seq<Event>)
    requires IsRows(db, tasks) && WorkersGood(db, s, tasks, ranges, ws)
    ensures WorkersGood(db, s, tasks, ranges, RunWorkers(db, s, tasks, ws, schedule))
    decreases |schedule|
  {
    if schedule != [] {
      var e := schedule[0];
      EventKeeps(db, s, tasks, ranges, ws, e);
      RunKeeps(db, s, tasks, ranges, EventStep(db, s, tasks, ws, e), schedule[1..]);
    }
  }

  // ---- commit ----

  /** The contacts whose update is committed once the first workers have been. */
  ghost function CommittedIds(tasks: seq<Task>, ws: seq<Worker>, count: nat): set<ContactId>
    requires count <= |ws|
    requires forall k :: 0 <= k < |ws| ==> ws[k].range.begin + ws[k].doneCount <= |tasks|
  {
    if count == 0 then {}
    else
      CommittedIds(tasks, ws, count - 1) + DoneIds(tasks, ws[count - 1])
  }

  ghost function DoneIds(tasks: seq<Task>, w: Worker): set<ContactId>
    requires w.range.begin + w.doneCount <= |tasks|
  {
    if w.status == Failed(true) then {} else Ids(tasks, w.range.begin, w.range.begin + w.doneCount)
  }

  lemma CommitsDone(db: Registry, s: Settings, tasks: seq<Task>, ranges: seq<Range>, ws: seq<Worker>, k: nat)
    requires WorkersGood(db, s, tasks, ranges, ws) && k < |ws|
    requires CommittedIds(tasks, ws, k) <= db.Keys
    ensures CommittedIds(tasks, ws, k + 1) <= db.Keys
    ensures db + Writes(db, s, CommittedIds(tasks, ws, k)) + ws[k].Commits() ==
      db + Writes(db, s, CommittedIds(tasks, ws, k + 1))
  {
    assert WorkerGood(db, s, tasks, ws[k]);
    assert ws[k].Commits() == Writes(db, s, DoneIds(tasks, ws[k]));
    WriteMore(db, s, CommittedIds(tasks, ws, k), DoneIds(tasks, ws[k]));
  }

  /** The loop over the workers after all threads have been joined. */
  method CommitAll(db: Registry, ws: seq<Worker>, ghost s: Settings, ghost tasks: seq<Task>, ghost ranges: seq<Range>)
      returns (after: Registry)
    requires WorkersGood(db, s, tasks, ranges, ws)
    ensures CommittedIds(tasks, ws, |ws|) <= db.Keys
    ensures after == db + Writes(db, s, CommittedIds(tasks, ws, |ws|))
  {
    after := db;
    for k := 0 to |ws|
      invariant CommittedIds(tasks, ws, k) <= db.Keys
      invariant after == db + Writes(db, s, CommittedIds(tasks, ws, k))
    {
      CommitsDone(db, s, tasks, ranges, ws, k);
      after := after + ws[k].Commits();
    }
  }

  predicate AllFinished(ws: seq<Worker>) {
    forall k :: 0 <= k < |ws| ==> ws[k].status.Finished?
  }

  /** A worker that exited by itself has done its whole range: the done ranges join up to all tasks. */
  lemma {:induction false} FinishedCoverAll(db: Registry, s: Settings, tasks: seq<Task>, ranges: seq<Range>,
      ws: seq<Worker>, count: nat)
    requires WorkersGood(db, s, tasks, ranges, ws) && Partition(ranges, |tasks|) && AllFinished(ws)
    requires count <= |ws|
    ensures CommittedIds(tasks, ws, count) == Ids(tasks, 0, if count == 0 then 0 else ranges[count - 1].end)
  {
    if count > 0 {
      FinishedCoverAll(db, s, tasks, ranges, ws, count - 1);
      var w := ws[count - 1];
      assert WorkerGood(db, s, tasks, w);
      IdsJoin(tasks, 0, w.range.begin, w.range.end);
    }
  }

  lemma IdsJoin(tasks: seq<Task>, a: nat, b: nat, c: nat)
    requires a <= b <= c <= |tasks|
    ensures Ids(tasks, a, c) == Ids(tasks, a, b) + Ids(tasks, b, c)
  {
  }

  /** Writing the selected contacts is writing all of them: the others would not change. */
  lemma SelectedAreEnough(db: Registry, s: Settings, tasks: seq<Task>)
    requires IsResult(db, s, tasks)
    ensures Ids(tasks, 0, |tasks|) <= db.Keys
    ensures db + Writes(db, s, Ids(tasks, 0, |tasks|)) == Pointwise(db, s)
  {
    var ids := Ids(tasks, 0, |tasks|);
    forall id | id in ids ensures id in db {
      var k :| 0 <= k < |tasks| && tasks[k].id == id;
      assert IsRow(db, tasks[k]);
    }
    forall id | id in db && id !in ids ensures Target(db, s, id) == db[id] {
      QuerySelectsWhatUpdateChanges(s, db[id]);
    }
  }

  /** After the pointwise update the query finds nothing. */
  lemma NothingLeft(db: Registry, s: Settings)
    ensures forall id :: id in Pointwise(db, s) ==> !Selects(Joined(Terms(s)), Pointwise(db, s)[id])
  {
    forall id | id in db ensures !Selects(Joined(Terms(s)), Pointwise(db, s)[id]) {
      QuerySelectsWhatUpdateChanges(s, Pointwise(db, s)[id]);
    }
  }

  lemma FinishedIsPointwise(db: Registry, s: Settings, tasks: seq<Task>, ranges: seq<Range>, ws: seq<Worker>)
    requires IsResult(db, s, tasks) && Partition(ranges, |tasks|) && WorkersGood(db, s, tasks, ranges, ws)
    requires AllFinished(ws)
    ensures CommittedIds(tasks, ws, |ws|) <= db.Keys
    ensures db + Writes(db, s, CommittedIds(tasks, ws, |ws|)) == Pointwise(db, s)
  {
    FinishedCoverAll(db, s, tasks, ranges, ws, |ws|);
    SelectedAreEnough(db, s, tasks);
  }

  /** A contact is either updated or untouched. */
  ghost predicate UpdatedOrUntouched(db: Registry, s: Settings, after: Registry) {
    after.Keys == db.Keys && forall id :: id in db ==> after[id] == db[id] || after[id] == Target(db, s, id)
  }

  /** A flag after the update: hidden, shown, or as it was. */
  predicate SetTo(before: Truth, value: DiscloseValue, after: Truth) {
    && (value == Hide ==> after == False)
    && (value == Show ==> after == True)
    && (value == NotSet ==> after == before)
  }

  /** Someone identified or validated who is no organization: NULL, empty or blank. */
  predicate VerifiedPerson(c: Contact) {
    && ("identifiedContact" in c.states || "validatedContact" in c.states)
    && (c.organization.Some? ==> forall k :: 0 <= k < |c.organization.value| ==> c.organization.value[k] == ' ')
  }

  /** What the settings ask for, flag by flag. */
  predicate AsSet(c: Contact, s: Settings, after: Contact) {
    && after.states == c.states && after.organization == c.organization
    && SetTo(c.flags.name, s.name, after.flags.name)
    && SetTo(c.flags.organization, s.org, after.flags.organization)
    && SetTo(c.flags.telephone, s.voice, after.flags.telephone)
    && SetTo(c.flags.fax, s.fax, after.flags.fax)
    && SetTo(c.flags.email, s.email, after.flags.email)
    && SetTo(c.flags.vat, s.vat, after.flags.vat)
    && SetTo(c.flags.ident, s.ident, after.flags.ident)
    && SetTo(c.flags.notifyEmail, s.notifyEmail, after.flags.notifyEmail)
    && (s.addr == AddressHide ==> after.flags.address == False)
    && (s.addr == AddressShow ==> after.flags.address == True)
    && (s.addr == AddressNotSet ==> after.flags.address == c.flags.address)
    && (s.addr == HideVerified ==> after.flags.address == if VerifiedPerson(c) then False else True)
  }

  lemma TargetIsAsSet(db: Registry, s: Settings, id: ContactId)
    requires id in db
    ensures AsSet(db[id], s, Target(db, s, id))
  {
  }

  lemma PointwiseIsAsSet(db: Registry, s: Settings)
    ensures Pointwise(db, s).Keys == db.Keys
    ensures forall id :: id in db ==> AsSet(db[id], s, Pointwise(db, s)[id])
  {
    forall id | id in db ensures AsSet(db[id], s, Pointwise(db, s)[id]) {
      TargetIsAsSet(db, s, id);
    }
  }

  lemma UntouchedOrAsSet(db: Registry, s: Settings, after: Registry)
    requires UpdatedOrUntouched(db, s, after)
    ensures forall id :: id in db ==> after[id] == db[id] || AsSet(db[id], s, after[id])
  {
    forall id | id in db ensures after[id] == db[id] || AsSet(db[id], s, after[id]) {
      TargetIsAsSet(db, s, id);
    }
  }

  /**
    The program from the query's result on, for every way the workers may be scheduled: dry runs change nothing, if all
    workers finish every contact is updated and nothing is left to do, and if some fail no contact is half done.
   */
  method Update(db: Registry, s: Settings, tasks: seq<Task>, threadCount: int, dryRun: bool, schedule: seq<Event>)
      returns (after: Registry, finished: bool)
    requires 1 <= threadCount < 0x8000 && IsResult(db, s, tasks)
    ensures dryRun ==> after == db
    ensures !dryRun && finished ==>
      after == Pointwise(db, s) && forall id :: id in after ==> !Selects(Joined(Terms(s)), after[id])
    ensures !dryRun && finished ==> forall id :: id in db ==> AsSet(db[id], s, after[id])
    ensures UpdatedOrUntouched(db, s, after)
    ensures forall id :: id in db ==> after[id] == db[id] || AsSet(db[id], s, after[id])
  {
    var ranges := SplitTasks(|tasks|, threadCount);
    var workers := Started(ranges);
    StartedGood(db, s, tasks, ranges);
    RunKeeps(db, s, tasks, ranges, workers, schedule);
    workers := Join(db, s, tasks, workers, schedule);
    finished := AllFinished(workers);
    after := db;
    if !dryRun {
      after := CommitAll(db, workers, s, tasks, ranges);
      if finished {
        FinishedIsPointwise(db, s, tasks, ranges, workers);
        NothingLeft(db, s);
        PointwiseIsAsSet(db, s);
      }
    }
    UntouchedOrAsSet(db, s, after);
  }

  lemma StartedGood(db: Registry, s: Settings, tasks: seq<Task>, ranges: seq<Range>)
    requires Partition(ranges, |tasks|)
    ensures WorkersGood(db, s, tasks, ranges, Started(ranges))
  {
  }

  /** The threads at work, in the order the scheduler gives them. */
  method Join(db: Registry, s: Settings, tasks: seq<Task>, started: seq<Worker>, schedule: seq<Event>)
      returns (workers: seq<Worker>)
    ensures workers == RunWorkers(db, s, tasks, started, schedule)
  {
    workers := started;
    for k := 0 to |schedule|
      invariant workers == RunWorkers(db, s, tasks, started, schedule[..k])
    {
      RunOneMore(db, s, tasks, started, schedule[..k], schedule[k]);
      assert schedule[..k + 1] == schedule[..k] + [schedule[k]];
      workers := EventStep(db, s, tasks, workers, schedule[k]);
    }
    assert schedule[..|schedule|] == schedule;
  }

  lemma {:induction false} RunOneMore(db: Registry, s: Settings, tasks: seq<Task>, ws: seq<Worker>,
      schedule: seq<Event>, e: Event)
    ensures RunWorkers(db, s, tasks, ws, schedule + [e]) ==
      EventStep(db, s, tasks, RunWorkers(db, s, tasks, ws, schedule), e)
    decreases |schedule|
  {
    if schedule == [] {
      assert RunWorkers(db, s, tasks, EventStep(db, s, tasks, ws, e), []) == EventStep(db, s, tasks, ws, e);
      assert (schedule + [e])[1..] == [];
    } else {
      RunOneMore(db, s, tasks, EventStep(db, s, tasks, ws, schedule[0]), schedule[1..], e);
      assert (schedule + [e])[1..] == schedule[1..] + [e];
    }
  }
}
