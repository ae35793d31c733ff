/**
 * Many reserve_order_stock transactions interleaved, one statement at a time. An UPDATE locks the row it writes
 * until its transaction ends; a row that another open transaction has written cannot be written, and is seen as
 * last committed. The database may abort an open transaction at any time, as it does to end a deadlock.
 */
module Interleaving {
  import opened Tables
  import opened StockLedger
  import opened Holds
  import opened ReservationService

  datatype Job = Job(order: OrderId, asks: seq<Ask>, now: int, ttl: int)

  /** `after` is how many transactions had committed when this one rolled back. */
  datatype Phase = Open | Committed | RolledBack(after: nat) | Aborted

  /** `mine` are the row versions this transaction has written and not yet committed. */
  datatype Progress = Progress(done: nat, mine: Inventory, phase: Phase)

  /** `log` lists the jobs in the order of their commits. */
  datatype World = World(db: State, progress: seq<Progress>, log: seq<Job>)

  datatype Move = Statement(i: nat) | Miss(i: nat) | Commit(i: nat) | Abort(i: nat)

  predicate LockedByOther(progress: seq<Progress>, i: nat, sku: Sku) {
    exists j | 0 <= j < |progress| :: j != i && progress[j].phase == Open && sku in progress[j].mine
  }

  /** The rows a transaction sees are its own versions over the committed ones. */
  ghost predicate Enabled(jobs: seq<Job>, w: World, m: Move) {
    && m.i < |jobs| == |w.progress| && w.progress[m.i].phase == Open
    && var p, asks := w.progress[m.i], jobs[m.i].asks;
    match m
    case Statement(i) =>
      p.done < |asks| && Matches(Hold, w.db.inv + p.mine, asks[p.done]) && !LockedByOther(w.progress, i, asks[p.done].sku)
    case Miss(_) => p.done < |asks| && !Matches(Hold, w.db.inv + p.mine, asks[p.done])
    case Commit(_) => p.done == |asks|
    case Abort(_) => true
  }

  ghost function Written(inv: Inventory, p: Progress, a: Ask): Progress
    requires Matches(Hold, inv + p.mine, a)
  {
    p.(done := p.done + 1, mine := p.mine[a.sku := Moved(Hold, (inv + p.mine)[a.sku], a.qty, 1)])
  }

  function AwaitPayment(orders: map<OrderId, Order>, job: Job): map<OrderId, Order> {
    if job.order in orders
    then orders[job.order := orders[job.order].(status := AwaitingPayment, ttl := Some(job.now + job.ttl))]
    else orders
  }

  ghost function Committing(db: State, p: Progress, job: Job): State {
    db.(inv := db.inv + p.mine,
        rows := db.rows + NewRows(job.asks, job.order, job.now + job.ttl),
        orders := AwaitPayment(db.orders, job))
  }

  ghost function Apply(jobs: seq<Job>, w: World, m: Move): World
    requires Enabled(jobs, w, m)
  {
    var p, job := w.progress[m.i], jobs[m.i];
    match m
    case Statement(i) => w.(progress := w.progress[i := Written(w.db.inv, p, job.asks[p.done])])
    case Miss(i) => w.(progress := w.progress[i := p.(mine := map[], phase := RolledBack(|w.log|))])
    case Commit(i) =>
      World(Committing(w.db, p, job), w.progress[i := p.(mine := map[], phase := Committed)], w.log + [job])
    case Abort(i) => w.(progress := w.progress[i := p.(mine := map[], phase := Aborted)])
  }

  // ---------- Serial execution ----------

  ghost function Reserve(s: State, job: Job): (State, Reply) {
    ReserveOrder(s, job.order, job.now, job.ttl)
  }

  ghost function Serial(s: State, log: seq<Job>): State {
    if log == [] then s else Reserve(Serial(s, log[..|log|-1]), log[|log|-1]).0
  }

  /** Every job of the log succeeds when the log is run serially. */
  ghost predicate AllDone(s: State, log: seq<Job>) {
    log == [] || (AllDone(s, log[..|log|-1]) && Reserve(Serial(s, log[..|log|-1]), log[|log|-1]).1 == Done)
  }

  // ---------- The invariant ----------

  ghost predicate GoodJob(s: State, job: Job) {
    && job.order in s.orders && Reservable(s.orders[job.order].status)
    && job.asks == AsksOf(s.orders[job.order].lines) && job.asks != [] && PositiveAsks(job.asks)
  }

  /** The jobs are reservations of different orders, each with lines and in an allowed status. */
  ghost predicate GoodJobs(s: State, jobs: seq<Job>) {
    && (forall i | 0 <= i < |jobs| :: GoodJob(s, jobs[i]))
    && (forall i, j | 0 <= i < |jobs| && 0 <= j < |jobs| && i != j :: jobs[i].order != jobs[j].order)
  }

  /** An open transaction's private rows are the committed ones plus its own demand so far. */
  ghost predicate OwnWrites(inv: Inventory, asks: seq<Ask>, p: Progress) {
    && p.done <= |asks|
    && Fits(Hold, inv, asks[..p.done])
    && (forall sku :: sku in p.mine <==> Hits(asks[..p.done], sku) > 0)
    && (forall sku | sku in p.mine ::
          sku in inv && p.mine[sku] == Moved(Hold, inv[sku], Demand(asks[..p.done], sku), Hits(asks[..p.done], sku)))
  }

  /** The same reservation, run alone, would be refused for want of stock. */
  ghost predicate WouldFail(s: State, job: Job) {
    Reserve(s, job).1.OutOfStock? && Reserve(s, job).0 == s
  }

  ghost predicate JobInvariant(s: State, w: World, job: Job, p: Progress) {
    && (p.phase == Open ==> OwnWrites(w.db.inv, job.asks, p))
    && (p.phase != Committed ==> job.order in s.orders && job.order in w.db.orders && w.db.orders[job.order] == s.orders[job.order])
    && (p.phase == Committed <==> job in w.log)
    && (p.phase.RolledBack? ==> p.phase.after <= |w.log| && WouldFail(Serial(s, w.log[..p.phase.after]), job))
  }

  ghost predicate Apart(p: Progress, q: Progress) {
    p.phase == Open && q.phase == Open ==> p.mine.Keys !! q.mine.Keys
  }

  ghost predicate AllApart(progress: seq<Progress>) {
    forall i, j | 0 <= i < |progress| && 0 <= j < |progress| && i != j :: Apart(progress[i], progress[j])
  }

  ghost predicate Invariant(s: State, jobs: seq<Job>, w: World) {
    && |w.progress| == |jobs|
    && w.db == Serial(s, w.log) && AllDone(s, w.log)
    && (forall job | job in w.log :: job in jobs)
    && (forall i | 0 <= i < |jobs| :: JobInvariant(s, w, jobs[i], w.progress[i]))
    && AllApart(w.progress)
  }

  // ---------- Single transactions ----------

  lemma ViewOfOwn(inv: Inventory, asks: seq<Ask>, p: Progress)
    requires PositiveAsks(asks) && OwnWrites(inv, asks, p)
    ensures inv + p.mine == MovedAll(Hold, inv, asks[..p.done])
  {
    forall sku | sku in inv ensures (inv + p.mine)[sku] == MovedAll(Hold, inv, asks[..p.done])[sku] {
      DemandBounds(asks[..p.done], sku);
    }
  }

  lemma WrittenRows(inv: Inventory, asks: seq<Ask>, p: Progress, sku: Sku)
    requires OwnWrites(inv, asks, p) && p.done < |asks| && asks[p.done].sku in inv
    requires inv + p.mine == MovedAll(Hold, inv, asks[..p.done])
    ensures var a, prefix := asks[p.done], asks[..p.done+1];
            var mine := p.mine[a.sku := Moved(Hold, (inv + p.mine)[a.sku], a.qty, 1)];
            && (sku in mine <==> Hits(prefix, sku) > 0)
            && (sku in mine ==> sku in inv && mine[sku] == Moved(Hold, inv[sku], Demand(prefix, sku), Hits(prefix, sku)))
  {
    var a := asks[p.done];
    assert asks[..p.done+1] == asks[..p.done] + [a];
    DemandAppends(asks[..p.done], a, sku);
    MovesAddUp(Hold, inv[a.sku], Demand(asks[..p.done], a.sku), Hits(asks[..p.done], a.sku), a.qty, 1);
  }

  lemma WrittenIsOwn(inv: Inventory, asks: seq<Ask>, p: Progress)
    requires PositiveAsks(asks) && OwnWrites(inv, asks, p) && p.done < |asks|
    requires Matches(Hold, inv + p.mine, asks[p.done])
    ensures OwnWrites(inv, asks, Written(inv, p, asks[p.done]))
  {
    ViewOfOwn(inv, asks, p);
    NextStatement(Hold, inv, asks, p.done);
    forall sku
      ensures sku in Written(inv, p, asks[p.done]).mine <==> Hits(asks[..p.done+1], sku) > 0
      ensures sku in Written(inv, p, asks[p.done]).mine ==>
                sku in inv && Written(inv, p, asks[p.done]).mine[sku] ==
                              Moved(Hold, inv[sku], Demand(asks[..p.done+1], sku), Hits(asks[..p.done+1], sku))
    {
      WrittenRows(inv, asks, p, sku);
    }
  }

  /** A commit of rows that another transaction has not written leaves that one's private rows right. */
  lemma OthersUnaffected(inv: Inventory, after: Inventory, asks: seq<Ask>, p: Progress)
    requires PositiveAsks(asks) && OwnWrites(inv, asks, p)
    requires forall sku | sku in p.mine :: sku in after && after[sku] == inv[sku]
    ensures OwnWrites(after, asks, p)
  {
    forall a | a in asks[..p.done] ensures a.sku in p.mine {
      DemandBounds(asks[..p.done], a.sku);
    }
  }

  lemma MissMeansNoFit(inv: Inventory, asks: seq<Ask>, p: Progress)
    requires PositiveAsks(asks) && OwnWrites(inv, asks, p) && p.done < |asks|
    requires !Matches(Hold, inv + p.mine, asks[p.done])
    ensures Served(Hold, inv, asks) < |asks|
  {
    ViewOfOwn(inv, asks, p);
    NextStatement(Hold, inv, asks, p.done);
    if Fits(Hold, inv, asks) {
      PrefixFits(Hold, inv, asks, p.done + 1);
    }
    ServedWholeIffFits(Hold, inv, asks);
  }

  /** A statement that misses its row now means that the whole reservation, run alone now, fails. */
  lemma MissFailsSerially(s: State, db: State, job: Job, p: Progress)
    requires GoodJob(s, job) && OwnWrites(db.inv, job.asks, p) && p.done < |job.asks|
    requires job.order in db.orders && db.orders[job.order] == s.orders[job.order]
    requires !Matches(Hold, db.inv + p.mine, job.asks[p.done])
    ensures WouldFail(db, job)
  {
    MissMeansNoFit(db.inv, job.asks, p);
  }

  lemma FittingJobIsReserved(db: State, job: Job)
    requires GoodJob(db, job) && Fits(Hold, db.inv, job.asks)
    ensures Reserve(db, job) ==
            (HoldAsks(db, job.asks, job.order, job.now + job.ttl).(orders := AwaitPayment(db.orders, job)), Done)
  {
    FittingIsReserved(db, job.order, job.now, job.ttl);
  }

  /** Committing the private rows is what the serial reservation would do now. */
  lemma CommitIsSerial(s: State, db: State, job: Job, p: Progress)
    requires GoodJob(s, job) && OwnWrites(db.inv, job.asks, p) && p.done == |job.asks|
    requires job.order in db.orders && db.orders[job.order] == s.orders[job.order]
    ensures Reserve(db, job) == (Committing(db, p, job), Done)
  {
    assert job.asks[..p.done] == job.asks;
    ViewOfOwn(db.inv, job.asks, p);
    FittingJobIsReserved(db, job);
  }

  // ---------- Moves keep the invariant ----------

  lemma WritingKeepsApart(progress: seq<Progress>, i: nat, next: Progress, sku: Sku)
    requires i < |progress| && AllApart(progress) && progress[i].phase == Open
    requires next.mine.Keys == progress[i].mine.Keys + {sku} && !LockedByOther(progress, i, sku)
    ensures AllApart(progress[i := next])
  {
    var after := progress[i := next];
    forall j, k | 0 <= j < |after| && 0 <= k < |after| && j != k ensures Apart(after[j], after[k]) {
      assert Apart(progress[j], progress[k]);
    }
  }

  lemma EndingKeepsApart(progress: seq<Progress>, i: nat, next: Progress)
    requires i < |progress| && AllApart(progress) && next.phase != Open
    ensures AllApart(progress[i := next])
  {
    var after := progress[i := next];
    forall j, k | 0 <= j < |after| && 0 <= k < |after| && j != k ensures Apart(after[j], after[k]) {
      assert Apart(progress[j], progress[k]);
    }
  }

  lemma KeepStatement(s: State, jobs: seq<Job>, w: World, i: nat)
    requires GoodJobs(s, jobs) && Invariant(s, jobs, w) && Enabled(jobs, w, Statement(i))
    ensures Invariant(s, jobs, Apply(jobs, w, Statement(i)))
  {
    var v, p, a := Apply(jobs, w, Statement(i)), w.progress[i], jobs[i].asks[w.progress[i].done];
    var next := Written(w.db.inv, p, a);
    assert JobInvariant(s, w, jobs[i], p) && GoodJob(s, jobs[i]);
    WrittenIsOwn(w.db.inv, jobs[i].asks, p);
    assert next.mine.Keys == p.mine.Keys + {a.sku};
    forall j | 0 <= j < |jobs| ensures JobInvariant(s, v, jobs[j], v.progress[j]) {
      assert JobInvariant(s, w, jobs[j], w.progress[j]);
    }
    WritingKeepsApart(w.progress, i, next, a.sku);
  }

  lemma KeepMiss(s: State, jobs: seq<Job>, w: World, i: nat)
    requires GoodJobs(s, jobs) && Invariant(s, jobs, w) && Enabled(jobs, w, Miss(i))
    ensures Invariant(s, jobs, Apply(jobs, w, Miss(i)))
  {
    var v := Apply(jobs, w, Miss(i));
    MissFailsSerially(s, w.db, jobs[i], w.progress[i]);
    assert w.log[..|w.log|] == w.log;
    forall j | 0 <= j < |jobs| ensures JobInvariant(s, v, jobs[j], v.progress[j]) {
      assert JobInvariant(s, w, jobs[j], w.progress[j]);
    }
    EndingKeepsApart(w.progress, i, v.progress[i]);
  }

  lemma KeepAbort(s: State, jobs: seq<Job>, w: World, i: nat)
    requires GoodJobs(s, jobs) && Invariant(s, jobs, w) && Enabled(jobs, w, Abort(i))
    ensures Invariant(s, jobs, Apply(jobs, w, Abort(i)))
  {
    var v := Apply(jobs, w, Abort(i));
    forall j | 0 <= j < |jobs| ensures JobInvariant(s, v, jobs[j], v.progress[j]) {
      assert JobInvariant(s, w, jobs[j], w.progress[j]);
    }
    EndingKeepsApart(w.progress, i, v.progress[i]);
  }

  /** What a commit leaves of another transaction's part of the invariant. */
  lemma CommitSparesOthers(s: State, w: World, v: World, mine: Job, m: Progress, job: Job, p: Progress)
    requires GoodJob(s, job) && JobInvariant(s, w, job, p) && Apart(m, p) && m.phase == Open && mine.order != job.order
    requires v.db == Committing(w.db, m, mine) && v.log == w.log + [mine]
    ensures JobInvariant(s, v, job, p)
  {
    if p.phase == Open {
      OthersUnaffected(w.db.inv, v.db.inv, job.asks, p);
    } else if p.phase.RolledBack? {
      assert v.log[..p.phase.after] == w.log[..p.phase.after];
    }
  }

  lemma KeepCommit(s: State, jobs: seq<Job>, w: World, i: nat)
    requires GoodJobs(s, jobs) && Invariant(s, jobs, w) && Enabled(jobs, w, Commit(i))
    ensures Invariant(s, jobs, Apply(jobs, w, Commit(i)))
  {
    var v, mine, m := Apply(jobs, w, Commit(i)), jobs[i], w.progress[i];
    assert JobInvariant(s, w, mine, m) && GoodJob(s, mine);
    CommitIsSerial(s, w.db, mine, m);
    assert v.log[..|v.log|-1] == w.log;
    forall j | 0 <= j < |jobs| ensures JobInvariant(s, v, jobs[j], v.progress[j]) {
      if j != i {
        assert GoodJob(s, jobs[j]) && JobInvariant(s, w, jobs[j], w.progress[j]) && Apart(w.progress[i], w.progress[j]);
        CommitSparesOthers(s, w, v, mine, m, jobs[j], w.progress[j]);
      }
    }
    EndingKeepsApart(w.progress, i, v.progress[i]);
  }

  // ---------- Whole schedules ----------

  ghost predicate Schedule(jobs: seq<Job>, w: World, moves: seq<Move>)
    decreases moves
  {
    moves == [] || (Enabled(jobs, w, moves[0]) && Schedule(jobs, Apply(jobs, w, moves[0]), moves[1..]))
  }

  ghost function After(jobs: seq<Job>, w: World, moves: seq<Move>): World
    requires Schedule(jobs, w, moves)
    decreases moves
  {
    if moves == [] then w else After(jobs, Apply(jobs, w, moves[0]), moves[1..])
  }

  lemma {:induction false} ScheduleKeepsInvariant(s: State, jobs: seq<Job>, w: World, moves: seq<Move>)
    requires GoodJobs(s, jobs) && Invariant(s, jobs, w) && Schedule(jobs, w, moves)
    ensures Invariant(s, jobs, After(jobs, w, moves))
    decreases moves
  {
    if moves != [] {
      match moves[0] {
        case Statement(i) => KeepStatement(s, jobs, w, i);
        case Miss(i) => KeepMiss(s, jobs, w, i);
        case Commit(i) => KeepCommit(s, jobs, w, i);
        case Abort(i) => KeepAbort(s, jobs, w, i);
      }
      ScheduleKeepsInvariant(s, jobs, Apply(jobs, w, moves[0]), moves[1..]);
    }
  }

  function Start(s: State, n: nat): World {
    World(s, seq(n, _ => Progress(0, map[], Open)), [])
  }

  lemma StartIsGood(s: State, jobs: seq<Job>)
    requires GoodJobs(s, jobs)
    ensures Invariant(s, jobs, Start(s, |jobs|))
  {
    var w := Start(s, |jobs|);
    forall i | 0 <= i < |jobs| ensures JobInvariant(s, w, jobs[i], w.progress[i]) {
      assert jobs[i].asks[..0] == [];
    }
  }

  /**
   * Serializability: whatever the interleaving, the committed state is that of the committed reservations run
   * one after another in commit order, all succeeding; and each reservation that rolled back after a statement missed
   * would have failed had it run alone at that point of the order. One that the database aborted leaves no trace.
   */
  lemma InterleavingIsSerial(s: State, jobs: seq<Job>, moves: seq<Move>)
    requires GoodJobs(s, jobs) && Schedule(jobs, Start(s, |jobs|), moves)
    ensures var w := After(jobs, Start(s, |jobs|), moves);
            && |w.progress| == |jobs|
            && w.db == Serial(s, w.log) && AllDone(s, w.log)
            && (forall i | 0 <= i < |jobs| :: w.progress[i].phase == Committed <==> jobs[i] in w.log)
            && (forall job | job in w.log :: job in jobs)
            && (forall i | 0 <= i < |jobs| && w.progress[i].phase.RolledBack? ::
                  w.progress[i].phase.after <= |w.log| && WouldFail(Serial(s, w.log[..w.progress[i].phase.after]), jobs[i]))
  {
    var w := Start(s, |jobs|);
    StartIsGood(s, jobs);
    ScheduleKeepsInvariant(s, jobs, w, moves);
    assert forall i | 0 <= i < |jobs| :: JobInvariant(s, After(jobs, w, moves), jobs[i], After(jobs, w, moves).progress[i]);
  }

  // ---------- Progress ----------

  /** The transaction's own doing, not an abort, can go on. */
  ghost predicate CanMove(jobs: seq<Job>, w: World, i: nat) {
    Enabled(jobs, w, Statement(i)) || Enabled(jobs, w, Miss(i)) || Enabled(jobs, w, Commit(i))
  }

  /** Every job visits its SKUs in one common order, given by distinct ranks. */
  ghost predicate InCommonOrder(jobs: seq<Job>, rank: Sku -> int) {
    && (forall x, y :: rank(x) == rank(y) ==> x == y)
    && (forall i | 0 <= i < |jobs| :: Ascending(jobs[i].asks, rank))
  }

  ghost predicate Ascending(asks: seq<Ask>, rank: Sku -> int) {
    forall j, k | 0 <= j < k < |asks| :: rank(asks[j].sku) <= rank(asks[k].sku)
  }

  /** The transaction waits for a row that another one has written. */
  ghost predicate Waits(jobs: seq<Job>, w: World, i: nat)
    requires |w.progress| == |jobs|
  {
    && i < |jobs| && w.progress[i].phase == Open && w.progress[i].done < |jobs[i].asks|
    && LockedByOther(w.progress, i, Wanted(jobs, w, i))
  }

  function Wanted(jobs: seq<Job>, w: World, i: nat): Sku
    requires |w.progress| == |jobs| && i < |jobs| && w.progress[i].done < |jobs[i].asks|
  {
    jobs[i].asks[w.progress[i].done].sku
  }

  lemma StuckWaits(jobs: seq<Job>, w: World, i: nat)
    requires |w.progress| == |jobs| && i < |jobs| && w.progress[i].phase == Open && w.progress[i].done <= |jobs[i].asks|
    requires !CanMove(jobs, w, i)
    ensures Waits(jobs, w, i)
  {
    assert !Enabled(jobs, w, Statement(i)) && !Enabled(jobs, w, Miss(i)) && !Enabled(jobs, w, Commit(i));
  }

  lemma {:induction false} HitsComeFromAsks(asks: seq<Ask>, sku: Sku) returns (j: nat)
    requires Hits(asks, sku) > 0
    ensures j < |asks| && asks[j].sku == sku
  {
    var n := |asks| - 1;
    if asks[n].sku == sku {
      j := n;
    } else {
      j := HitsComeFromAsks(asks[..n], sku);
    }
  }

  /** A row that a transaction has written does not rank above the one it wants next. */
  lemma WrittenRanksBelow(inv: Inventory, asks: seq<Ask>, p: Progress, rank: Sku -> int, sku: Sku)
    requires OwnWrites(inv, asks, p) && p.done < |asks| && Ascending(asks, rank) && sku in p.mine
    ensures rank(sku) <= rank(asks[p.done].sku)
  {
    var j := HitsComeFromAsks(asks[..p.done], sku);
    assert asks[j].sku == sku;
  }

  lemma OwnRowIsFree(progress: seq<Progress>, j: nat, sku: Sku)
    requires AllApart(progress) && j < |progress| && progress[j].phase == Open && sku in progress[j].mine
    ensures !LockedByOther(progress, j, sku)
  {
    forall k | 0 <= k < |progress| && k != j && progress[k].phase == Open ensures sku !in progress[k].mine {
      assert Apart(progress[j], progress[k]);
    }
  }

  /** Whoever waits, waits for a transaction that wants a row of higher rank, or for one that can move. */
  lemma WaitsForHigher(s: State, jobs: seq<Job>, w: World, rank: Sku -> int, i: nat) returns (j: nat)
    requires Invariant(s, jobs, w) && InCommonOrder(jobs, rank) && Waits(jobs, w, i)
    requires forall k: nat | k < |jobs| :: !CanMove(jobs, w, k)
    ensures Waits(jobs, w, j) && rank(Wanted(jobs, w, i)) < rank(Wanted(jobs, w, j))
  {
    var sku := Wanted(jobs, w, i);
    j :| 0 <= j < |w.progress| && j != i && w.progress[j].phase == Open && sku in w.progress[j].mine;
    assert JobInvariant(s, w, jobs[j], w.progress[j]);
    StuckWaits(jobs, w, j);
    WrittenRanksBelow(w.db.inv, jobs[j].asks, w.progress[j], rank, sku);
    OwnRowIsFree(w.progress, j, sku);
  }

  /** No transaction waits when none can move: among those that wait one would want the highest row. */
  lemma {:induction false} NobodyWaits(s: State, jobs: seq<Job>, w: World, rank: Sku -> int, i: nat, below: set<nat>)
    requires Invariant(s, jobs, w) && InCommonOrder(jobs, rank) && Waits(jobs, w, i)
    requires forall k: nat | k < |jobs| :: !CanMove(jobs, w, k)
    requires forall k | k in below :: Waits(jobs, w, k) && rank(Wanted(jobs, w, k)) < rank(Wanted(jobs, w, i))
    requires below <= Indices(|jobs|)
    ensures false
    decreases |jobs| - |below|
  {
    SubsetSize(below + {i}, Indices(|jobs|));
    var j := WaitsForHigher(s, jobs, w, rank, i);
    NobodyWaits(s, jobs, w, rank, j, below + {i});
  }

  function Indices(n: nat): (all: set<nat>)
    ensures forall i :: i in all <==> 0 <= i < n
    ensures |all| == n
  {
    if n == 0 then {} else Indices(n - 1) + {n - 1}
  }

  lemma {:induction false} SubsetSize(a: set<nat>, b: set<nat>)
    requires a <= b
    ensures |a| <= |b|
  {
    if a != {} {
      var x :| x in a;
      SubsetSize(a - {x}, b - {x});
    }
  }

  /**
   * Progress: when all jobs visit their SKUs in one common order, then after any schedule some open transaction can go
   * on without an abort, as long as one is open.
   */
  lemma CommonOrderNeverDeadlocks(s: State, jobs: seq<Job>, moves: seq<Move>, rank: Sku -> int, i: nat)
    requires GoodJobs(s, jobs) && Schedule(jobs, Start(s, |jobs|), moves) && InCommonOrder(jobs, rank)
    requires i < |jobs| == |After(jobs, Start(s, |jobs|), moves).progress|
    requires After(jobs, Start(s, |jobs|), moves).progress[i].phase == Open
    ensures exists k: nat | k < |jobs| :: CanMove(jobs, After(jobs, Start(s, |jobs|), moves), k)
  {
    var w := After(jobs, Start(s, |jobs|), moves);
    StartIsGood(s, jobs);
    ScheduleKeepsInvariant(s, jobs, Start(s, |jobs|), moves);
    if forall k: nat | k < |jobs| :: !CanMove(jobs, w, k) {
      assert JobInvariant(s, w, jobs[i], w.progress[i]);
      StuckWaits(jobs, w, i);
      NobodyWaits(s, jobs, w, rank, i, {});
    }
  }
}
