/**
 * One call of `match` against the worker threads, as a step relation: every
 * interleaving of the caller, the workers and the file-name searcher is a run.
 * Operations on a queue are atomic, as its lock makes them.
 */
module Workers {
  import opened FileContents
  import opened Sequences
  import opened ThreadQueues

  /** What a worker is doing for the job. */
  datatype Worker =
    | Idle
    | Draining                                  // holds the job, about to pop a chunk
    | Searching(chunk: nat, left: seq<Result>)       // with results still to be pushed
    | Closing                                   // was the last to finish

  datatype FileWorker = FileIdle | FileSearching(left: seq<Result>)

  datatype Caller =
    | Handing(copies: nat, counted: bool)       // pushing copies of the job; `counted` says `pending` is ahead
    | Sending(sent: nat)                        // pushing chunks
    | Submitting                                // the chunk queue is closed
    | Receiving
    | ReceivingFiles
    | Returned

  datatype State = State(
    out: seq<seq<Result>>, fileOut: seq<Result>,          // what the search finds in each chunk, and among file names
    caller: Caller, workers: seq<Worker>, fileWorker: FileWorker,
    jobs: nat, pending: int, chunks: Queue<nat>, results: Queue<Result>, closes: nat,
    fileJobs: nat, files: Queue<Result>, fileCloses: nat,
    taken: seq<(nat, nat)>,                     // history: chunk and worker
    delivered: seq<Result>, deliveredFiles: seq<Result>)

  ghost predicate Init(s: State) {
    && s.workers != [] && (forall w | 0 <= w < |s.workers| :: s.workers[w] == Idle) && s.fileWorker == FileIdle
    && s.caller == Handing(0, false) && s.jobs == 0 && s.pending == 0 && s.closes == 0
    && s.chunks == Queue([], false) && s.results == Queue([], false)
    && s.fileJobs == 0 && s.files == Queue([], false) && s.fileCloses == 0
    && s.taken == [] && s.delivered == [] && s.deliveredFiles == []
  }

  // ----- The caller -----

  predicate CallerStep(s: State, s': State) {
    match s.caller
    case Handing(copies, counted) =>
      if copies == |s.workers| then
        s' == s.(caller := Sending(0))
      else if counted then
        s' == s.(jobs := s.jobs + 1, caller := Handing(copies + 1, false))
      else
        s' == s.(pending := s.pending + 1, caller := Handing(copies, true))
    case Sending(sent) =>
      if sent < |s.out| then
        s' == s.(chunks := s.chunks.Push(sent), caller := Sending(sent + 1))
      else
        s' == s.(chunks := s.chunks.Close(), caller := Submitting)
    case Submitting =>
      s' == s.(fileJobs := s.fileJobs + 1, caller := Receiving)
    case Receiving =>
      if s.results.items != [] then
        s' == s.(results := s.results.Rest(), delivered := s.delivered + [s.results.Front()])
      else
        s.results.closed && s' == s.(caller := ReceivingFiles)
    case ReceivingFiles =>
      if s.files.items != [] then
        s' == s.(files := s.files.Rest(), deliveredFiles := s.deliveredFiles + [s.files.Front()])
      else
        s.files.closed && s' == s.(caller := Returned)
    case Returned => false
  }

  // ----- The workers -----

  predicate WorkerStep(s: State, s': State, w: nat)
    requires w < |s.workers|
  {
    match s.workers[w]
    case Idle =>
      s.jobs > 0 && s' == s.(jobs := s.jobs - 1, workers := s.workers[w := Draining])
    case Draining =>
      if s.chunks.items != [] then
        var c := s.chunks.Front();
        && c < |s.out|
        && s' == s.(chunks := s.chunks.Rest(), taken := s.taken + [(c, w)],
                    workers := s.workers[w := Searching(c, s.out[c])])
      else
        && s.chunks.closed
        && s' == s.(pending := s.pending - 1, workers := s.workers[w := if s.pending == 1 then Closing else Idle])
    case Searching(c, left) =>
      if left != [] then
        s' == s.(results := s.results.Push(left[0]), workers := s.workers[w := Searching(c, left[1..])])
      else
        s' == s.(workers := s.workers[w := Draining])
    case Closing =>
      s' == s.(results := s.results.Close(), closes := s.closes + 1, workers := s.workers[w := Idle])
  }

  predicate FileWorkerStep(s: State, s': State) {
    match s.fileWorker
    case FileIdle =>
      s.fileJobs > 0 && s' == s.(fileJobs := s.fileJobs - 1, fileWorker := FileSearching(s.fileOut))
    case FileSearching(left) =>
      if left != [] then
        s' == s.(files := s.files.Push(left[0]), fileWorker := FileSearching(left[1..]))
      else
        s' == s.(files := s.files.Close(), fileCloses := s.fileCloses + 1, fileWorker := FileIdle)
  }

  ghost predicate Step(s: State, s': State) {
    || CallerStep(s, s')
    || (exists w: nat | w < |s.workers| :: WorkerStep(s, s', w))
    || FileWorkerStep(s, s')
  }

  // ----- Counting -----

  function Holds(w: Worker): nat {
    if w.Draining? || w.Searching? then 1 else 0
  }

  function Holding(ws: seq<Worker>): nat {
    if ws == [] then 0 else Holding(ws[..|ws| - 1]) + Holds(ws[|ws| - 1])
  }

  function Closers(ws: seq<Worker>): nat {
    if ws == [] then 0 else Closers(ws[..|ws| - 1]) + if ws[|ws| - 1].Closing? then 1 else 0
  }

  function LeftOf(w: Worker): seq<Result> {
    if w.Searching? then w.left else []
  }

  /** How often `r` has been found but not yet pushed. */
  function Left(ws: seq<Worker>, r: Result): nat {
    if ws == [] then 0 else Left(ws[..|ws| - 1], r) + Count(LeftOf(ws[|ws| - 1]), r)
  }

  function Count(s: seq<Result>, r: Result): nat {
    multiset(s)[r]
  }

  lemma CountParts(x: Result, s: seq<Result>, r: Result)
    ensures Count([x] + s, r) == Count([x], r) + Count(s, r) && Count(s + [x], r) == Count(s, r) + Count([x], r)
    ensures Count([], r) == 0
  {
  }

  /** How often `r` is to be found in the chunks taken so far. */
  function Found(out: seq<seq<Result>>, taken: seq<(nat, nat)>, r: Result): nat
    requires forall i | 0 <= i < |taken| :: taken[i].0 < |out|
  {
    if taken == [] then 0 else Found(out, taken[..|taken| - 1], r) + Count(out[taken[|taken| - 1].0], r)
  }

  lemma {:induction false} Change(ws: seq<Worker>, w: nat, x: Worker, r: Result)
    requires w < |ws|
    ensures Holding(ws[w := x]) == Holding(ws) - Holds(ws[w]) + Holds(x)
    ensures Closers(ws[w := x]) == Closers(ws) - (if ws[w].Closing? then 1 else 0) + if x.Closing? then 1 else 0
    ensures Left(ws[w := x], r) == Left(ws, r) - Count(LeftOf(ws[w]), r) + Count(LeftOf(x), r)
  {
    hide Count, LeftOf;
    var n := |ws| - 1;
    if w < n {
      Change(ws[..n], w, x, r);
      assert ws[w := x][..n] == ws[..n][w := x];
    } else {
      assert ws[w := x][..n] == ws[..n];
    }
  }

  lemma {:induction false} NoneHolds(ws: seq<Worker>)
    ensures (forall w | 0 <= w < |ws| :: ws[w].Idle?) <==> Holding(ws) == 0 && Closers(ws) == 0
    ensures Holding(ws) == 0 ==> forall r :: Left(ws, r) == 0
  {
    if ws != [] {
      var n := |ws| - 1;
      NoneHolds(ws[..n]);
      assert forall w | 0 <= w < n :: ws[w] == ws[..n][w];
      assert (forall w | 0 <= w < |ws| :: ws[w].Idle?) <==> (forall w | 0 <= w < n :: ws[..n][w].Idle?) && ws[n].Idle?;
    }
  }

  // ----- The invariant -----

  function Handed(s: State): nat {
    if s.caller.Handing? then s.caller.copies else |s.workers|
  }

  function Sent(s: State): nat {
    match s.caller
    case Handing(_, _) => 0
    case Sending(sent) => sent
    case _ => |s.out|
  }

  function Ahead(s: State): nat {
    if s.caller.Handing? && s.caller.counted then 1 else 0
  }

  /** `pending` counts the copies of the job that are not done with. */
  ghost predicate Counts(s: State) {
    && Handed(s) + Ahead(s) <= |s.workers| && s.workers != []
    && s.pending == s.jobs + Holding(s.workers) + Ahead(s)
    && (s.chunks.closed <==> !s.caller.Handing? && !s.caller.Sending?)
    && (!s.chunks.closed ==> s.jobs + Holding(s.workers) == Handed(s) && Closers(s.workers) == 0 && s.closes == 0)
    && (s.chunks.closed ==>
      && s.jobs + Holding(s.workers) <= |s.workers|
      && Closers(s.workers) + s.closes == (if s.pending == 0 then 1 else 0)
      && (s.jobs + Holding(s.workers) < |s.workers| ==> s.chunks.items == []))
    && (s.results.closed <==> s.closes == 1) && s.closes <= 1
  }

  function Chunks(taken: seq<(nat, nat)>): seq<nat> {
    seq(|taken|, i requires 0 <= i < |taken| => taken[i].0)
  }

  /** The chunks are taken in the order in which they were sent, and none twice. */
  ghost predicate TakenInOrder(s: State) {
    && Sent(s) <= |s.out| && Chunks(s.taken) + s.chunks.items == Numbers(Sent(s))
    && forall i | 0 <= i < |s.taken| :: s.taken[i].0 < |s.out| && s.taken[i].1 < |s.workers|
  }

  /** No result is lost or repeated. */
  ghost predicate Conserved(s: State)
    requires TakenInOrder(s)
  {
    forall r :: Balanced(s, r)
  }

  ghost predicate Balanced(s: State, r: Result)
    requires TakenInOrder(s)
  {
    Count(s.delivered, r) + Count(s.results.items, r) + Left(s.workers, r) == Found(s.out, s.taken, r)
  }

  ghost predicate CallerFine(s: State) {
    s.caller.ReceivingFiles? || s.caller.Returned? ==> s.results.closed && s.results.items == []
  }

  function FileLeft(s: State): seq<Result> {
    if s.fileWorker.FileSearching? then s.fileWorker.left
    else if s.fileCloses > 0 then []
    else s.fileOut
  }

  ghost predicate FilesFine(s: State) {
    && s.fileJobs + (if s.fileWorker.FileSearching? then 1 else 0) + s.fileCloses
       == (if s.caller.Receiving? || s.caller.ReceivingFiles? || s.caller.Returned? then 1 else 0)
    && (s.files.closed <==> s.fileCloses == 1)
    && s.deliveredFiles + s.files.items + FileLeft(s) == s.fileOut
    && (s.caller.Returned? ==> s.files.closed && s.files.items == [])
  }

  ghost predicate Inv(s: State) {
    Counts(s) && TakenInOrder(s) && Conserved(s) && CallerFine(s) && FilesFine(s)
  }

  lemma InitInv(s: State)
    requires Init(s)
    ensures Inv(s)
  {
    NoneHolds(s.workers);
  }

  lemma CallerKeepsCounts(s: State, s': State)
    requires Counts(s) && CallerStep(s, s')
    ensures Counts(s')
  {
    hide Holding, Closers;
  }

  lemma CallerKeepsTaken(s: State, s': State)
    requires Inv(s) && CallerStep(s, s')
    ensures TakenInOrder(s')
  {
    hide Counts, Conserved, CallerFine, FilesFine;
    if s.caller.Sending? && s.caller.sent < |s.out| {
      assert Numbers(Sent(s) + 1) == Numbers(Sent(s)) + [Sent(s)];
      assert Chunks(s.taken) + (s.chunks.items + [Sent(s)]) == Chunks(s.taken) + s.chunks.items + [Sent(s)];
    }
  }

  lemma CallerKeepsRest(s: State, s': State)
    requires Inv(s) && CallerStep(s, s') && TakenInOrder(s')
    ensures Conserved(s') && CallerFine(s')
  {
    hide Counts, TakenInOrder, FilesFine, Left, Found, Count;
    forall r ensures Balanced(s', r) {
      assert Balanced(s, r);
      if s.caller.Receiving? && s.results.items != [] {
        var x := s.results.items[0];
        assert s.results.items == [x] + s.results.items[1..];
        CountParts(x, s.results.items[1..], r);
        CountParts(x, s.delivered, r);
      }
    }
  }

  lemma CallerKeepsFiles(s: State, s': State)
    requires FilesFine(s) && CallerStep(s, s')
    ensures FilesFine(s')
  {
    if s.caller.ReceivingFiles? && s.files.items != [] {
      assert s.files.items == [s.files.items[0]] + s.files.items[1..];
    }
  }

  lemma WorkerKeepsCounts(s: State, s': State, w: nat)
    requires Counts(s) && w < |s.workers| && WorkerStep(s, s', w)
    ensures Counts(s')
  {
    hide Holding, Closers, Left;
    var r :| r == Result(0, 0, Piece(0, 0, 0), [], []);
    Change(s.workers, w, s'.workers[w], r);
  }

  lemma WorkerKeepsTaken(s: State, s': State, w: nat)
    requires TakenInOrder(s) && w < |s.workers| && WorkerStep(s, s', w)
    ensures TakenInOrder(s')
  {
    if s.workers[w].Draining? && s.chunks.items != [] {
      var c := s.chunks.items[0];
      assert Chunks(s'.taken) == Chunks(s.taken) + [c];
      assert s.chunks.items == [c] + s.chunks.items[1..];
    }
  }

  lemma TakenInRange(s: State)
    requires TakenInOrder(s)
    ensures forall i | 0 <= i < |s.taken| :: s.taken[i].0 < |s.out|
  {
  }

  lemma FoundPush(out: seq<seq<Result>>, taken: seq<(nat, nat)>, x: (nat, nat), r: Result)
    requires x.0 < |out| && forall i | 0 <= i < |taken| :: taken[i].0 < |out|
    ensures Found(out, taken + [x], r) == Found(out, taken, r) + Count(out[x.0], r)
  {
    assert (taken + [x])[..|taken|] == taken;
  }

  lemma WorkerKeepsConserved(s: State, s': State, w: nat)
    requires TakenInOrder(s) && Conserved(s) && w < |s.workers| && WorkerStep(s, s', w) && TakenInOrder(s')
    ensures Conserved(s')
  {
    hide WorkerStep, TakenInOrder, Balanced;
    forall r ensures Balanced(s', r) {
      WorkerKeepsBalance(s, s', w, r);
    }
  }

  lemma WorkerKeepsBalance(s: State, s': State, w: nat, r: Result)
    requires TakenInOrder(s) && Balanced(s, r) && w < |s.workers| && WorkerStep(s, s', w) && TakenInOrder(s')
    ensures Balanced(s', r)
  {
    TakenInRange(s);
    TakenInRange(s');
    hide TakenInOrder;
    if s.workers[w].Draining? && s.chunks.items != [] {
      TakingKeepsBalance(s, s', w, r);
    } else if s.workers[w].Searching? && s.workers[w].left != [] {
      PushingKeepsBalance(s, s', w, r);
    } else {
      hide Left, Found, Count;
      Change(s.workers, w, s'.workers[w], r);
    }
  }

  lemma TakingKeepsBalance(s: State, s': State, w: nat, r: Result)
    requires TakenInOrder(s) && Balanced(s, r) && TakenInOrder(s')
    requires w < |s.workers| && s.workers[w].Draining? && s.chunks.items != [] && WorkerStep(s, s', w)
    ensures Balanced(s', r)
  {
    TakenInRange(s);
    hide Left, TakenInOrder, Found, Count;
    Change(s.workers, w, s'.workers[w], r);
    CountParts(r, [], r);
    FoundPush(s.out, s.taken, (s.chunks.items[0], w), r);
  }

  lemma PushingKeepsBalance(s: State, s': State, w: nat, r: Result)
    requires TakenInOrder(s) && Balanced(s, r) && TakenInOrder(s')
    requires w < |s.workers| && s.workers[w].Searching? && s.workers[w].left != [] && WorkerStep(s, s', w)
    ensures Balanced(s', r)
  {
    TakenInRange(s);
    hide Left, TakenInOrder, Found, Count;
    Change(s.workers, w, s'.workers[w], r);
    var left := s.workers[w].left;
    assert left == [left[0]] + left[1..];
    CountParts(left[0], left[1..], r);
    CountParts(left[0], s.results.items, r);
  }

  /** Once the result queue is closed no worker has anything left to push. */
  lemma WorkerKeepsCallerFine(s: State, s': State, w: nat)
    requires Counts(s) && CallerFine(s) && w < |s.workers| && WorkerStep(s, s', w)
    ensures CallerFine(s')
  {
    if s.results.closed {
      NoneHolds(s.workers);
    }
  }

  lemma FileWorkerKeeps(s: State, s': State)
    requires FilesFine(s) && FileWorkerStep(s, s')
    ensures FilesFine(s')
  {
    if s.fileWorker.FileSearching? && s.fileWorker.left != [] {
      var left := s.fileWorker.left;
      assert left == [left[0]] + left[1..];
    }
  }

  // ----- Runs -----

  /** A run: any sequence of steps from the start. */
  ghost predicate Run(run: seq<State>) {
    run != [] && Init(run[0]) && forall i | 0 <= i < |run| - 1 :: Step(run[i], run[i + 1])
  }

  lemma {:induction false} RunInv(run: seq<State>, i: nat)
    requires Run(run) && i < |run|
    ensures Inv(run[i]) && run[i].out == run[0].out && run[i].fileOut == run[0].fileOut
  {
    if i == 0 {
      InitInv(run[0]);
    } else {
      RunInv(run, i - 1);
      StepKeeps(run[i - 1], run[i]);
    }
  }

  lemma StepKeeps(s: State, s': State)
    requires Inv(s) && Step(s, s')
    ensures Inv(s') && s'.out == s.out && s'.fileOut == s.fileOut
  {
    hide Counts, TakenInOrder, Conserved, CallerFine, FilesFine;
    if CallerStep(s, s') {
      CallerKeepsCounts(s, s');
      CallerKeepsTaken(s, s');
      CallerKeepsRest(s, s');
      CallerKeepsFiles(s, s');
    } else if FileWorkerStep(s, s') {
      FileWorkerKeeps(s, s');
      FileWorkerLeaves(s, s');
    } else {
      var w: nat :| w < |s.workers| && WorkerStep(s, s', w);
      WorkerKeepsCounts(s, s', w);
      WorkerKeepsTaken(s, s', w);
      WorkerKeepsConserved(s, s', w);
      WorkerKeepsCallerFine(s, s', w);
      WorkerLeaves(s, s', w);
    }
  }

  lemma FileWorkerLeaves(s: State, s': State)
    requires Inv(s) && FileWorkerStep(s, s')
    ensures Counts(s') && TakenInOrder(s') && Conserved(s') && CallerFine(s')
  {
    OnlyFilesChange(s, s');
    hide Counts, TakenInOrder, CallerFine, FilesFine, Left, Found, FileWorkerStep;
    forall r ensures Balanced(s', r) {
      assert Balanced(s, r);
    }
  }

  lemma OnlyFilesChange(s: State, s': State)
    requires FileWorkerStep(s, s')
    ensures s' == s.(fileJobs := s'.fileJobs, fileWorker := s'.fileWorker, files := s'.files, fileCloses := s'.fileCloses)
    ensures Counts(s) ==> Counts(s')
    ensures TakenInOrder(s) ==> TakenInOrder(s')
    ensures CallerFine(s) ==> CallerFine(s')
  {
    hide Holding, Closers, Chunks, Numbers;
  }

  lemma WorkerLeaves(s: State, s': State, w: nat)
    requires FilesFine(s) && w < |s.workers| && WorkerStep(s, s', w)
    ensures FilesFine(s')
  {
  }

  /** How often `r` is to be found in all chunks. */
  function Everything(out: seq<seq<Result>>, r: Result): nat {
    if out == [] then 0 else Everything(out[..|out| - 1], r) + Count(out[|out| - 1], r)
  }

  lemma {:induction false} FoundEverything(out: seq<seq<Result>>, taken: seq<(nat, nat)>, n: nat, r: Result)
    requires n <= |out| && Chunks(taken) == Numbers(n)
    ensures forall i | 0 <= i < |taken| :: taken[i].0 < |out|
    ensures Found(out, taken, r) == Everything(out[..n], r)
  {
    assert |taken| == |Chunks(taken)| == n;
    assert forall i | 0 <= i < n :: taken[i].0 == Chunks(taken)[i] == i;
    if n > 0 {
      var m := n - 1;
      assert Chunks(taken[..m]) == Numbers(m);
      FoundEverything(out, taken[..m], m, r);
      assert out[..n][..m] == out[..m];
    }
  }

  /** With every chunk taken and nothing left over, what was pushed is everything. */
  lemma AllPushed(s: State, r: Result)
    requires TakenInOrder(s) && Conserved(s) && Chunks(s.taken) == Numbers(|s.out|) && Holding(s.workers) == 0
    ensures Count(s.delivered, r) + Count(s.results.items, r) == Everything(s.out, r)
  {
    hide Found, Everything, Left, Count;
    NoneHolds(s.workers);
    FoundEverything(s.out, s.taken, |s.out|, r);
    assert s.out[..|s.out|] == s.out;
    assert Balanced(s, r);
  }

  /**
   * When the call returns, in whatever interleaving: every chunk has been taken
   * by exactly one worker, the result queue was closed exactly once, everything
   * found has been delivered exactly once, and nobody holds the job any more.
   */
  lemma Delivered(run: seq<State>)
    requires Run(run) && run[|run| - 1].caller.Returned?
    ensures var s := run[|run| - 1];
      && Chunks(s.taken) == Numbers(|s.out|)
      && (forall i | 0 <= i < |s.taken| :: s.taken[i].1 < |s.workers|)
      && s.closes == 1 && s.fileCloses == 1
      && (forall r :: Count(s.delivered, r) == Everything(run[0].out, r))
      && s.deliveredFiles == run[0].fileOut
      && s.jobs == 0 && s.fileJobs == 0 && s.fileWorker.FileIdle?
      && (forall w | 0 <= w < |s.workers| :: s.workers[w].Idle?)
  {
    var s := run[|run| - 1];
    RunInv(run, |run| - 1);
    NoneHolds(s.workers);
    assert Chunks(s.taken) == Numbers(|s.out|);
    forall r ensures Count(s.delivered, r) == Everything(run[0].out, r) {
      AllPushed(s, r);
      CountParts(r, [], r);
    }
  }

  /** At any moment: no chunk is taken twice, and the queue is closed only once everything found has been pushed. */
  lemma Always(run: seq<State>, i: nat)
    requires Run(run) && i < |run|
    ensures var s := run[i];
      && (forall a, b | 0 <= a < b < |s.taken| :: s.taken[a].0 != s.taken[b].0)
      && s.closes <= 1
      && (s.results.closed ==>
        && Chunks(s.taken) == Numbers(|s.out|)
        && (forall r :: Count(s.delivered, r) + Count(s.results.items, r) == Everything(s.out, r))
        && (forall w | 0 <= w < |s.workers| :: s.workers[w].Idle?) && s.jobs == 0)
  {
    var s := run[i];
    RunInv(run, i);
    NoneHolds(s.workers);
    forall a, b | 0 <= a < b < |s.taken| ensures s.taken[a].0 != s.taken[b].0 {
      var all := Chunks(s.taken) + s.chunks.items;
      assert all[a] == s.taken[a].0 && all[b] == s.taken[b].0;
    }
    if s.results.closed {
      assert Chunks(s.taken) == Numbers(|s.out|);
      forall r ensures Count(s.delivered, r) + Count(s.results.items, r) == Everything(s.out, r) {
        AllPushed(s, r);
      }
    }
  }

  // ----- No call hangs -----

  /** Until the call returns, somebody can take a step. */
  lemma Progress(s: State) returns (s': State)
    requires Inv(s) && !s.caller.Returned?
    ensures Step(s, s')
  {
    hide Conserved, TakenInOrder, FilesFine, Counts;
    if s.caller.Handing? || s.caller.Sending? || s.caller.Submitting? {
      s' := CallerCan(s);
    } else if s.caller.Receiving? {
      if s.results.items != [] || s.results.closed {
        s' := CallerCan(s);
      } else {
        var w := SomeWorkerCan(s);
        s' := WorkerMoves(s, w);
      }
    } else if s.files.items != [] || s.files.closed {
      s' := CallerCan(s);
    } else {
      s' := FileWorkerMoves(s);
    }
  }

  lemma CallerCan(s: State) returns (s': State)
    requires !s.caller.Returned?
    requires s.caller.Receiving? ==> s.results.items != [] || s.results.closed
    requires s.caller.ReceivingFiles? ==> s.files.items != [] || s.files.closed
    ensures CallerStep(s, s')
  {
    match s.caller
    case Handing(copies, counted) =>
      s' := if copies == |s.workers| then s.(caller := Sending(0))
            else if counted then s.(jobs := s.jobs + 1, caller := Handing(copies + 1, false))
            else s.(pending := s.pending + 1, caller := Handing(copies, true));
    case Sending(sent) =>
      s' := if sent < |s.out| then s.(chunks := s.chunks.Push(sent), caller := Sending(sent + 1))
            else s.(chunks := s.chunks.Close(), caller := Submitting);
    case Submitting =>
      s' := s.(fileJobs := s.fileJobs + 1, caller := Receiving);
    case Receiving =>
      s' := if s.results.items != []
            then s.(results := s.results.Rest(), delivered := s.delivered + [s.results.Front()])
            else s.(caller := ReceivingFiles);
    case ReceivingFiles =>
      s' := if s.files.items != []
            then s.(files := s.files.Rest(), deliveredFiles := s.deliveredFiles + [s.files.Front()])
            else s.(caller := Returned);
  }

  /** The worker is not waiting. */
  predicate CanMove(s: State, w: nat)
    requires w < |s.workers|
  {
    match s.workers[w]
    case Idle => s.jobs > 0
    case Draining => if s.chunks.items != [] then s.chunks.Front() < |s.out| else s.chunks.closed
    case _ => true
  }

  /** While the caller waits for results, a worker can move. */
  lemma SomeWorkerCan(s: State) returns (w: nat)
    requires Inv(s) && s.caller.Receiving? && !s.results.closed
    ensures w < |s.workers| && CanMove(s, w)
  {
    hide Conserved, CallerFine, FilesFine;
    NoneHolds(s.workers);
    if v :| 0 <= v < |s.workers| && !s.workers[v].Idle? {
      w := v;
      if s.chunks.items != [] {
        var all := Chunks(s.taken) + s.chunks.items;
        assert s.chunks.Front() == all[|s.taken|] == Numbers(Sent(s))[|s.taken|];
      }
    } else {
      w := 0;
    }
  }

  lemma WorkerMoves(s: State, w: nat) returns (s': State)
    requires w < |s.workers| && CanMove(s, w)
    ensures Step(s, s')
  {
    match s.workers[w] {
      case Idle =>
        s' := s.(jobs := s.jobs - 1, workers := s.workers[w := Draining]);
      case Draining =>
        if s.chunks.items != [] {
          var c := s.chunks.Front();
          s' := s.(chunks := s.chunks.Rest(), taken := s.taken + [(c, w)],
                   workers := s.workers[w := Searching(c, s.out[c])]);
        } else {
          s' := s.(pending := s.pending - 1, workers := s.workers[w := if s.pending == 1 then Closing else Idle]);
        }
      case Searching(c, left) =>
        s' := if left != []
              then s.(results := s.results.Push(left[0]), workers := s.workers[w := Searching(c, left[1..])])
              else s.(workers := s.workers[w := Draining]);
      case Closing =>
        s' := s.(results := s.results.Close(), closes := s.closes + 1, workers := s.workers[w := Idle]);
    }
    assert WorkerStep(s, s', w);
  }

  lemma FileWorkerMoves(s: State) returns (s': State)
    requires FilesFine(s) && s.caller.ReceivingFiles? && !s.files.closed
    ensures Step(s, s')
  {
    match s.fileWorker {
      case FileIdle =>
        s' := s.(fileJobs := s.fileJobs - 1, fileWorker := FileSearching(s.fileOut));
      case FileSearching(left) =>
        s' := if left != []
              then s.(files := s.files.Push(left[0]), fileWorker := FileSearching(left[1..]))
              else s.(files := s.files.Close(), fileCloses := s.fileCloses + 1, fileWorker := FileIdle);
    }
    assert FileWorkerStep(s, s');
  }

  // ----- Every run ends -----

  /** The steps a queued chunk still needs: one to take it and one to leave it, and two for every result. */
  function ChunkRank(out: seq<seq<Result>>, c: nat): nat {
    2 + if c < |out| then 2 * |out[c]| else 0
  }

  function QueueRank(out: seq<seq<Result>>, items: seq<nat>): nat {
    if items == [] then 0 else ChunkRank(out, items[0]) + QueueRank(out, items[1..])
  }

  function UnsentRank(out: seq<seq<Result>>, sent: nat): nat
    decreases |out| - sent
  {
    if sent >= |out| then 0 else 1 + ChunkRank(out, sent) + UnsentRank(out, sent + 1)
  }

  function WorkerRank(w: Worker): nat {
    match w
    case Idle => 0
    case Closing => 1
    case Draining => 2
    case Searching(_, left) => 3 + 2 * |left|
  }

  function WorkersRank(ws: seq<Worker>): nat {
    if ws == [] then 0 else WorkersRank(ws[..|ws| - 1]) + WorkerRank(ws[|ws| - 1])
  }

  function FileRank(s: State): nat {
    (if s.fileJobs > 0 then 2 + 2 * |s.fileOut| else 0)
    + (if s.fileWorker.FileSearching? then 1 + 2 * |s.fileWorker.left| else 0)
    + |s.files.items|
  }

  function CallerRank(s: State): int {
    var submit := 3 + 2 + 2 * |s.fileOut|;
    match s.caller
    case Handing(copies, counted) =>
      5 * (|s.workers| - copies) - (if counted then 1 else 0) + 2 + UnsentRank(s.out, 0) + submit
    case Sending(sent) => 1 + UnsentRank(s.out, sent) + submit
    case Submitting => submit
    case Receiving => 2
    case ReceivingFiles => 1
    case Returned => 0
  }

  /** How many steps are left at most. */
  function Rank(s: State): int {
    CallerRank(s) + 3 * s.jobs + WorkersRank(s.workers) + QueueRank(s.out, s.chunks.items) + |s.results.items| + FileRank(s)
  }

  lemma {:induction false} ChangeRank(ws: seq<Worker>, w: nat, x: Worker)
    requires w < |ws|
    ensures WorkersRank(ws[w := x]) == WorkersRank(ws) - WorkerRank(ws[w]) + WorkerRank(x)
  {
    hide WorkerRank;
    var n := |ws| - 1;
    if w < n {
      ChangeRank(ws[..n], w, x);
      assert ws[w := x][..n] == ws[..n][w := x];
    } else {
      assert ws[w := x][..n] == ws[..n];
    }
  }

  lemma {:induction false} QueueRankPush(out: seq<seq<Result>>, items: seq<nat>, c: nat)
    ensures QueueRank(out, items + [c]) == QueueRank(out, items) + ChunkRank(out, c)
  {
    if items == [] {
      assert items + [c] == [c];
    } else {
      QueueRankPush(out, items[1..], c);
      assert (items + [c])[1..] == items[1..] + [c];
    }
  }

  lemma CallerDescends(s: State, s': State)
    requires Inv(s) && CallerStep(s, s')
    ensures Rank(s') < Rank(s)
  {
    hide Conserved, TakenInOrder, CallerFine, Holding, Closers, WorkersRank, QueueRank;
    if s.caller.Sending? && s.caller.sent < |s.out| {
      QueueRankPush(s.out, s.chunks.items, s.caller.sent);
    }
  }

  lemma WorkerDescends(s: State, s': State, w: nat)
    requires w < |s.workers| && WorkerStep(s, s', w)
    ensures Rank(s') < Rank(s)
  {
    OtherRanks(s, s', w);
    WorkDescends(s, s', w);
    hide WorkersRank, QueueRank, CallerRank, FileRank, WorkerStep;
  }

  /** The jobs, chunks and results in the queues and with the workers get less by a worker's step. */
  lemma WorkDescends(s: State, s': State, w: nat)
    requires w < |s.workers| && WorkerStep(s, s', w)
    ensures 3 * s'.jobs + WorkersRank(s'.workers) + QueueRank(s'.out, s'.chunks.items) + |s'.results.items|
      < 3 * s.jobs + WorkersRank(s.workers) + QueueRank(s.out, s.chunks.items) + |s.results.items|
  {
    ChangeRank(s.workers, w, s'.workers[w]);
    hide WorkersRank;
    if s.workers[w].Draining? && s.chunks.items != [] {
      assert QueueRank(s.out, s.chunks.items) == ChunkRank(s.out, s.chunks.Front()) + QueueRank(s.out, s'.chunks.items);
    } else {
      hide QueueRank;
    }
  }

  lemma OtherRanks(s: State, s': State, w: nat)
    requires w < |s.workers| && WorkerStep(s, s', w)
    ensures CallerRank(s') == CallerRank(s) && FileRank(s') == FileRank(s)
  {
    hide UnsentRank;
  }

  lemma FileWorkerDescends(s: State, s': State)
    requires FilesFine(s) && FileWorkerStep(s, s')
    ensures Rank(s') < Rank(s)
  {
    hide WorkersRank, UnsentRank, QueueRank;
  }

  /** Every step brings the end nearer. */
  lemma StepDescends(s: State, s': State)
    requires Inv(s) && Step(s, s')
    ensures Rank(s') < Rank(s)
  {
    hide Rank, Counts, TakenInOrder, Conserved, CallerFine, FilesFine;
    if CallerStep(s, s') {
      CallerDescends(s, s');
    } else if FileWorkerStep(s, s') {
      FileWorkerDescends(s, s');
    } else {
      var w: nat :| w < |s.workers| && WorkerStep(s, s', w);
      WorkerDescends(s, s', w);
    }
  }

  lemma RankNatural(s: State)
    requires Inv(s)
    ensures Rank(s) >= 0
  {
    hide Conserved, TakenInOrder, FilesFine, WorkersRank, QueueRank, UnsentRank;
  }

  lemma {:induction false} RunRank(run: seq<State>, i: nat)
    requires Run(run) && i < |run|
    ensures Rank(run[i]) + i <= Rank(run[0])
  {
    hide Rank, Init, Inv, Step;
    if i > 0 {
      RunRank(run, i - 1);
      RunInv(run, i - 1);
      StepDescends(run[i - 1], run[i]);
    }
  }

  lemma NothingAfterReturn(s: State, s': State)
    requires Inv(s) && s.caller.Returned?
    ensures !Step(s, s')
  {
    NoneHolds(s.workers);
  }

  /** Every run ends, and a run ends exactly when the call has returned. */
  lemma RunsEnd(run: seq<State>)
    requires Run(run)
    ensures |run| - 1 <= Rank(run[0])
    ensures var last := run[|run| - 1]; last.caller.Returned? <==> forall s' :: !Step(last, s')
  {
    hide Rank, Inv, Step;
    var last := run[|run| - 1];
    RunRank(run, |run| - 1);
    RunInv(run, |run| - 1);
    RankNatural(last);
    if last.caller.Returned? {
      forall s' ensures !Step(last, s') {
        NothingAfterReturn(last, s');
      }
    } else {
      var s' := Progress(last);
    }
  }

  /** From any start there is a run to the return of the call: always taking some possible step leads there. */
  lemma RunToEnd(s: State) returns (run: seq<State>)
    requires Init(s)
    ensures Run(run) && run[0] == s && run[|run| - 1].caller.Returned?
  {
    hide Rank, Inv, Step, Init;
    run := [s];
    InitInv(s);
    RankNatural(s);
    while !run[|run| - 1].caller.Returned?
      invariant Run(run) && run[0] == s && Inv(run[|run| - 1]) && Rank(run[|run| - 1]) >= 0
      decreases Rank(run[|run| - 1])
    {
      var last := run[|run| - 1];
      var s' := Progress(last);
      StepKeeps(last, s');
      StepDescends(last, s');
      RankNatural(s');
      ghost var longer := run + [s'];
      forall i | 0 <= i < |longer| - 1 ensures Step(longer[i], longer[i + 1]) {
        assert i < |run| - 1 ==> Step(run[i], run[i + 1]);
      }
      run := longer;
    }
  }
}
