/**
 * When reservations can deadlock: exactly when some of them, after some others have committed, can stand each before a
 * line whose row another one has already written. Two that visit two SKUs in opposite orders are the simplest case.
 */
module Deadlock {
  import opened Tables
  import opened StockLedger
  import opened Interleaving

  // ---------- Worlds that can be reached ----------

  ghost predicate Reaches(jobs: seq<Job>, w: World, v: World) {
    exists moves :: Schedule(jobs, w, moves) && After(jobs, w, moves) == v
  }

  lemma StaysThere(jobs: seq<Job>, w: World)
    ensures Reaches(jobs, w, w)
  {
    var moves: seq<Move> := [];
    assert Schedule(jobs, w, moves) && After(jobs, w, moves) == w;
  }

  lemma ReachesAfterMove(jobs: seq<Job>, w: World, m: Move, v: World)
    requires Enabled(jobs, w, m) && Reaches(jobs, Apply(jobs, w, m), v)
    ensures Reaches(jobs, w, v)
  {
    var moves :| Schedule(jobs, Apply(jobs, w, m), moves) && After(jobs, Apply(jobs, w, m), moves) == v;
    var all := [m] + moves;
    assert all[0] == m && all[1..] == moves;
    assert Schedule(jobs, w, all) && After(jobs, w, all) == v;
  }

  lemma ReachesByMove(jobs: seq<Job>, w: World, m: Move)
    requires Enabled(jobs, w, m)
    ensures Reaches(jobs, w, Apply(jobs, w, m))
  {
    StaysThere(jobs, Apply(jobs, w, m));
    ReachesAfterMove(jobs, w, m, Apply(jobs, w, m));
  }

  lemma {:induction false} ReachesFurther(jobs: seq<Job>, w: World, moves: seq<Move>, v: World)
    requires Schedule(jobs, w, moves) && Reaches(jobs, After(jobs, w, moves), v)
    ensures Reaches(jobs, w, v)
    decreases moves
  {
    if moves != [] {
      ReachesFurther(jobs, Apply(jobs, w, moves[0]), moves[1..], v);
      ReachesAfterMove(jobs, w, moves[0], v);
    }
  }

  lemma ReachesInTurn(jobs: seq<Job>, u: World, v: World, w: World)
    requires Reaches(jobs, u, v) && Reaches(jobs, v, w)
    ensures Reaches(jobs, u, w)
  {
    var moves :| Schedule(jobs, u, moves) && After(jobs, u, moves) == v;
    ReachesFurther(jobs, u, moves, w);
  }

  /**
   * Some transaction is open and none can go on without an abort. Transactions that only wait for one another while
   * others can still go on come to this once the others have ended, which an abort can bring about at any time.
   */
  ghost predicate Deadlocked(jobs: seq<Job>, w: World) {
    && |w.progress| == |jobs|
    && (exists i | 0 <= i < |jobs| :: w.progress[i].phase == Open)
    && forall i: nat | i < |jobs| :: !CanMove(jobs, w, i)
  }

  ghost predicate CanDeadlock(s: State, jobs: seq<Job>) {
    exists w :: Reaches(jobs, Start(s, |jobs|), w) && Deadlocked(jobs, w)
  }

  // ---------- Tangles ----------

  predicate AsksFor(asks: seq<Ask>, sku: Sku) {
    exists a | a in asks :: a.sku == sku
  }

  ghost predicate NothingShared(xs: seq<Ask>, ys: seq<Ask>) {
    forall sku :: !(AsksFor(xs, sku) && AsksFor(ys, sku))
  }

  /** The lines before the place where a reservation stands; none when it has ended. */
  function Passed(job: Job, at: Option<nat>): seq<Ask> {
    if at.Some? && at.value <= |job.asks| then job.asks[..at.value] else []
  }

  /** Alone it could pass the lines before its place and the next one, but another has passed the next one's row. */
  ghost predicate HeldUp(inv: Inventory, jobs: seq<Job>, at: seq<Option<nat>>, i: nat)
    requires i < |jobs| == |at| && at[i].Some?
  {
    && at[i].value < |jobs[i].asks|
    && Fits(Hold, inv, jobs[i].asks[..at[i].value])
    && Matches(Hold, inv, jobs[i].asks[at[i].value])
    && exists j | 0 <= j < |jobs| && j != i :: AsksFor(Passed(jobs[j], at[j]), jobs[i].asks[at[i].value].sku)
  }

  /** Some reservations stand where each is held up by another, and no two have passed the same row. */
  ghost predicate Tangle(inv: Inventory, jobs: seq<Job>, at: seq<Option<nat>>) {
    && |at| == |jobs|
    && (exists i | 0 <= i < |jobs| :: at[i].Some?)
    && (forall i {:trigger HeldUp(inv, jobs, at, i)} | 0 <= i < |jobs| && at[i].Some? :: HeldUp(inv, jobs, at, i))
    && (forall i, j {:trigger NothingShared(Passed(jobs[i], at[i]), Passed(jobs[j], at[j]))} |
          0 <= i < |jobs| && 0 <= j < |jobs| && i != j :: NothingShared(Passed(jobs[i], at[i]), Passed(jobs[j], at[j])))
  }

  /** A tangle of reservations outside `log` once those of `log` have succeeded one after another. */
  ghost predicate TangleAfter(s: State, jobs: seq<Job>, log: seq<Job>, at: seq<Option<nat>>) {
    && AllDone(s, log) && (forall job | job in log :: job in jobs)
    && Tangle(Serial(s, log).inv, jobs, at)
    && forall i | 0 <= i < |jobs| && at[i].Some? :: jobs[i] !in log
  }

  lemma WrittenMeansAsked(inv: Inventory, asks: seq<Ask>, p: Progress, sku: Sku)
    requires PositiveAsks(asks) && OwnWrites(inv, asks, p)
    ensures sku in p.mine <==> AsksFor(asks[..p.done], sku)
  {
    DemandBounds(asks[..p.done], sku);
  }

  // ---------- A deadlock is a tangle ----------

  function Places(progress: seq<Progress>): seq<Option<nat>> {
    seq(|progress|, i requires 0 <= i < |progress| => if progress[i].phase == Open then Some(progress[i].done) else None)
  }

  lemma StuckIsHeldUp(s: State, jobs: seq<Job>, w: World, i: nat)
    requires GoodJobs(s, jobs) && Invariant(s, jobs, w) && i < |jobs| && w.progress[i].phase == Open
    requires !CanMove(jobs, w, i)
    ensures HeldUp(w.db.inv, jobs, Places(w.progress), i)
  {
    var p, asks, at := w.progress[i], jobs[i].asks, Places(w.progress);
    assert JobInvariant(s, w, jobs[i], p) && GoodJob(s, jobs[i]);
    StuckWaits(jobs, w, i);
    var sku := Wanted(jobs, w, i);
    if sku in p.mine {
      OwnRowIsFree(w.progress, i, sku);
      assert false;
    }
    assert !Enabled(jobs, w, Miss(i));
    assert Matches(Hold, w.db.inv, asks[p.done]);
    var j :| 0 <= j < |jobs| && j != i && w.progress[j].phase == Open && sku in w.progress[j].mine;
    assert JobInvariant(s, w, jobs[j], w.progress[j]) && GoodJob(s, jobs[j]);
    WrittenMeansAsked(w.db.inv, jobs[j].asks, w.progress[j], sku);
    assert AsksFor(Passed(jobs[j], at[j]), sku);
  }

  lemma ApartIsNothingShared(s: State, jobs: seq<Job>, w: World, i: nat, j: nat)
    requires GoodJobs(s, jobs) && Invariant(s, jobs, w) && i < |jobs| && j < |jobs| && i != j
    ensures var at := Places(w.progress); NothingShared(Passed(jobs[i], at[i]), Passed(jobs[j], at[j]))
  {
    var p, q := w.progress[i], w.progress[j];
    assert GoodJob(s, jobs[i]) && GoodJob(s, jobs[j]) && Apart(p, q);
    if p.phase == Open && q.phase == Open {
      assert JobInvariant(s, w, jobs[i], p) && JobInvariant(s, w, jobs[j], q);
      forall sku ensures !(AsksFor(jobs[i].asks[..p.done], sku) && AsksFor(jobs[j].asks[..q.done], sku)) {
        WrittenMeansAsked(w.db.inv, jobs[i].asks, p, sku);
        WrittenMeansAsked(w.db.inv, jobs[j].asks, q, sku);
      }
    }
  }

  lemma StuckIsTangle(s: State, jobs: seq<Job>, w: World)
    requires GoodJobs(s, jobs) && Invariant(s, jobs, w) && Deadlocked(jobs, w)
    ensures Tangle(w.db.inv, jobs, Places(w.progress))
  {
    var at := Places(w.progress);
    forall i | 0 <= i < |jobs| && at[i].Some? ensures HeldUp(w.db.inv, jobs, at, i) {
      StuckIsHeldUp(s, jobs, w, i);
    }
    forall i, j | 0 <= i < |jobs| && 0 <= j < |jobs| && i != j
      ensures NothingShared(Passed(jobs[i], at[i]), Passed(jobs[j], at[j]))
    {
      ApartIsNothingShared(s, jobs, w, i, j);
    }
    var i :| 0 <= i < |jobs| && w.progress[i].phase == Open;
    assert at[i].Some?;
  }

  lemma OpenIsNotLogged(s: State, jobs: seq<Job>, w: World, i: nat)
    requires Invariant(s, jobs, w) && i < |jobs| && w.progress[i].phase == Open
    ensures jobs[i] !in w.log
  {
    assert JobInvariant(s, w, jobs[i], w.progress[i]);
  }

  lemma DeadlockIsTangle(s: State, jobs: seq<Job>, w: World)
    requires GoodJobs(s, jobs) && Invariant(s, jobs, w) && Deadlocked(jobs, w)
    ensures TangleAfter(s, jobs, w.log, Places(w.progress))
  {
    StuckIsTangle(s, jobs, w);
    forall i | 0 <= i < |jobs| && Places(w.progress)[i].Some? ensures jobs[i] !in w.log {
      OpenIsNotLogged(s, jobs, w, i);
    }
  }

  // ---------- Walking to a place ----------

  ghost predicate StandsAt(inv: Inventory, job: Job, p: Progress, k: nat) {
    p.phase == Open && p.done == k && OwnWrites(inv, job.asks, p)
  }

  /** No other open transaction has written a row that the asks name. */
  ghost predicate Unlocked(progress: seq<Progress>, i: nat, asks: seq<Ask>) {
    forall a | a in asks :: !LockedByOther(progress, i, a.sku)
  }

  lemma OwnStepLocksNothing(progress: seq<Progress>, i: nat, next: Progress, asks: seq<Ask>)
    requires i < |progress| && Unlocked(progress, i, asks)
    ensures Unlocked(progress[i := next], i, asks)
  {
    forall a | a in asks ensures !LockedByOther(progress[i := next], i, a.sku) {
      assert !LockedByOther(progress, i, a.sku);
    }
  }

  /** The next statement of a prefix that fits hits its row and leaves the transaction one line further. */
  lemma NextLine(inv: Inventory, job: Job, p: Progress, k: nat)
    requires p.done < k <= |job.asks| && PositiveAsks(job.asks) && StandsAt(inv, job, p, p.done) && Fits(Hold, inv, job.asks[..k])
    ensures Matches(Hold, inv + p.mine, job.asks[p.done])
    ensures StandsAt(inv, job, Written(inv, p, job.asks[p.done]), p.done + 1)
    ensures job.asks[p.done] in job.asks[..k]
  {
    var asks, j := job.asks, p.done + 1;
    assert asks[..k][..j] == asks[..j];
    PrefixFits(Hold, inv, asks[..k], j);
    ViewOfOwn(inv, asks, p);
    NextStatement(Hold, inv, asks, p.done);
    assert asks[p.done] == asks[..k][p.done];
    WrittenIsOwn(inv, asks, p);
  }

  /** Walk to the k-th line, one statement at a time, past rows that no other open transaction has written. */
  lemma {:induction false} WalkTo(jobs: seq<Job>, w: World, i: nat, k: nat) returns (v: World)
    requires i < |jobs| == |w.progress| && PositiveAsks(jobs[i].asks)
    requires w.progress[i].done <= k <= |jobs[i].asks| && StandsAt(w.db.inv, jobs[i], w.progress[i], w.progress[i].done)
    requires Fits(Hold, w.db.inv, jobs[i].asks[..k]) && Unlocked(w.progress, i, jobs[i].asks[..k])
    ensures Reaches(jobs, w, v) && v.db == w.db && v.log == w.log
    ensures |v.progress| == |w.progress| && StandsAt(w.db.inv, jobs[i], v.progress[i], k)
    ensures v.progress == w.progress[i := v.progress[i]]
    decreases k - w.progress[i].done
  {
    var p := w.progress[i];
    if p.done == k {
      v := w;
      StaysThere(jobs, w);
    } else {
      NextLine(w.db.inv, jobs[i], p, k);
      var next := Written(w.db.inv, p, jobs[i].asks[p.done]);
      var u := w.(progress := w.progress[i := next]);
      assert Enabled(jobs, w, Statement(i)) && Apply(jobs, w, Statement(i)) == u;
      OwnStepLocksNothing(w.progress, i, next, jobs[i].asks[..k]);
      v := WalkTo(jobs, u, i, k);
      ReachesAfterMove(jobs, w, Statement(i), v);
    }
  }

  // ---------- Reservations one after another ----------

  lemma SerialAppends(s: State, log: seq<Job>, job: Job)
    ensures Serial(s, log + [job]) == Reserve(Serial(s, log), job).0
  {
    assert (log + [job])[..|log|] == log;
  }

  lemma SplitLog(s: State, log: seq<Job>) returns (p: seq<Job>, z: Job)
    requires AllDone(s, log) && log != []
    ensures log == p + [z] && AllDone(s, p) && Reserve(Serial(s, p), z).1 == Done
  {
    p, z := log[..|log|-1], log[|log|-1];
  }

  lemma ReserveLeavesAwaiting(s: State, job: Job, o: OrderId)
    requires Reserve(s, job).1 == Done
    requires o == job.order || (o in s.orders && s.orders[o].status == AwaitingPayment)
    ensures var t := Reserve(s, job).0; o in t.orders && t.orders[o].status == AwaitingPayment
  {
  }

  /** An order that was reserved awaits payment after every later success. */
  lemma {:induction false} ReservedAwaits(s: State, log: seq<Job>, job: Job)
    requires AllDone(s, log) && job in log
    ensures var t := Serial(s, log); job.order in t.orders && t.orders[job.order].status == AwaitingPayment
  {
    var p, z := SplitLog(s, log);
    if job in p {
      ReservedAwaits(s, p, job);
    }
    ReserveLeavesAwaiting(Serial(s, p), z, job.order);
    SerialAppends(s, p, z);
  }

  lemma NotReservedTwice(s: State, log: seq<Job>, job: Job)
    requires AllDone(s, log) && Reserve(Serial(s, log), job).1 == Done
    ensures job !in log
  {
    if job in log {
      ReservedAwaits(s, log, job);
    }
  }

  ghost predicate RanOrFresh(log: seq<Job>, job: Job, p: Progress) {
    if job in log then p.phase == Committed else p == Progress(0, map[], Open)
  }

  ghost predicate AllRanOrFresh(jobs: seq<Job>, log: seq<Job>, progress: seq<Progress>) {
    |progress| == |jobs| && forall i | 0 <= i < |jobs| :: RanOrFresh(log, jobs[i], progress[i])
  }

  /** The jobs of the log have committed in its order and the others have not begun. */
  ghost predicate Ran(s: State, jobs: seq<Job>, log: seq<Job>, w: World) {
    w.db == Serial(s, log) && w.log == log && AllRanOrFresh(jobs, log, w.progress)
  }

  lemma FreshStands(inv: Inventory, job: Job)
    ensures StandsAt(inv, job, Progress(0, map[], Open), 0)
  {
    assert job.asks[..0] == [];
  }

  lemma NobodyLocks(s: State, jobs: seq<Job>, log: seq<Job>, w: World, i: nat)
    requires Ran(s, jobs, log, w) && i < |jobs|
    ensures Unlocked(w.progress, i, jobs[i].asks)
  {
    forall j | 0 <= j < |jobs| && w.progress[j].phase == Open ensures w.progress[j].mine == map[] {
      assert RanOrFresh(log, jobs[j], w.progress[j]);
    }
  }

  lemma ReservedFits(s: State, db: State, job: Job)
    requires GoodJob(s, job) && job.order in db.orders && db.orders[job.order] == s.orders[job.order]
    requires Reserve(db, job).1 == Done
    ensures Fits(Hold, db.inv, job.asks)
  {
    ServedWholeIffFits(Hold, db.inv, job.asks);
  }

  lemma OneMoreRan(s: State, jobs: seq<Job>, log: seq<Job>, progress: seq<Progress>, i: nat, next: Progress)
    requires GoodJobs(s, jobs) && AllRanOrFresh(jobs, log, progress) && i < |jobs| && next.phase == Committed
    ensures AllRanOrFresh(jobs, log + [jobs[i]], progress[i := next])
  {
    forall j | 0 <= j < |jobs| ensures RanOrFresh(log + [jobs[i]], jobs[j], progress[i := next][j]) {
      assert RanOrFresh(log, jobs[j], progress[j]);
      assert j != i ==> jobs[j].order != jobs[i].order;
    }
  }

  /** The commit of a job that has walked to its end leaves what the whole reservation would leave. */
  lemma CommitLeaves(s: State, jobs: seq<Job>, w: World, i: nat, p: Progress)
    requires i < |jobs| == |w.progress| && GoodJob(s, jobs[i]) && StandsAt(w.db.inv, jobs[i], p, |jobs[i].asks|)
    requires jobs[i].order in w.db.orders && w.db.orders[jobs[i].order] == s.orders[jobs[i].order]
    ensures var u, next := w.(progress := w.progress[i := p]), p.(mine := map[], phase := Committed);
            && Enabled(jobs, u, Commit(i))
            && Apply(jobs, u, Commit(i)) == World(Reserve(w.db, jobs[i]).0, w.progress[i := next], w.log + [jobs[i]])
  {
    CommitIsSerial(s, w.db, jobs[i], p);
    var next := p.(mine := map[], phase := Committed);
    assert w.progress[i := p][i := next] == w.progress[i := next];
  }

  /** So with the others ended or not begun. */
  lemma CommitRuns(s: State, jobs: seq<Job>, log: seq<Job>, w: World, i: nat, p: Progress) returns (v: World)
    requires GoodJobs(s, jobs) && Ran(s, jobs, log, w) && i < |jobs|
    requires jobs[i].order in w.db.orders && w.db.orders[jobs[i].order] == s.orders[jobs[i].order]
    requires StandsAt(w.db.inv, jobs[i], p, |jobs[i].asks|)
    ensures Reaches(jobs, w.(progress := w.progress[i := p]), v) && Ran(s, jobs, log + [jobs[i]], v)
  {
    assert GoodJob(s, jobs[i]);
    CommitLeaves(s, jobs, w, i, p);
    v := Apply(jobs, w.(progress := w.progress[i := p]), Commit(i));
    ReachesByMove(jobs, w.(progress := w.progress[i := p]), Commit(i));
    SerialAppends(s, log, jobs[i]);
    OneMoreRan(s, jobs, log, w.progress, i, p.(mine := map[], phase := Committed));
  }

  /** Run the job whole from a world in which nobody has begun but those that have committed. */
  lemma RunJob(s: State, jobs: seq<Job>, log: seq<Job>, w: World, i: nat) returns (v: World)
    requires GoodJobs(s, jobs) && Invariant(s, jobs, w) && Ran(s, jobs, log, w) && i < |jobs| && jobs[i] !in log
    requires Reserve(w.db, jobs[i]).1 == Done
    ensures Reaches(jobs, w, v) && Ran(s, jobs, log + [jobs[i]], v)
  {
    var job, n := jobs[i], |jobs[i].asks|;
    assert GoodJob(s, job) && JobInvariant(s, w, job, w.progress[i]) && RanOrFresh(log, job, w.progress[i]);
    assert job.asks[..n] == job.asks;
    ReservedFits(s, w.db, job);
    FreshStands(w.db.inv, job);
    NobodyLocks(s, jobs, log, w, i);
    var u := WalkTo(jobs, w, i, n);
    assert u == w.(progress := w.progress[i := u.progress[i]]);
    v := CommitRuns(s, jobs, log, w, i, u.progress[i]);
    ReachesInTurn(jobs, w, u, v);
  }

  lemma ReachedIsGood(s: State, jobs: seq<Job>, w: World)
    requires GoodJobs(s, jobs) && Reaches(jobs, Start(s, |jobs|), w)
    ensures Invariant(s, jobs, w)
  {
    var moves :| Schedule(jobs, Start(s, |jobs|), moves) && After(jobs, Start(s, |jobs|), moves) == w;
    StartIsGood(s, jobs);
    ScheduleKeepsInvariant(s, jobs, Start(s, |jobs|), moves);
  }

  lemma StartRan(s: State, jobs: seq<Job>)
    ensures Ran(s, jobs, [], Start(s, |jobs|))
  {
  }

  /** One more job of the log, which succeeds after those before it. */
  lemma RunNext(s: State, jobs: seq<Job>, log: seq<Job>, w: World, job: Job) returns (v: World)
    requires GoodJobs(s, jobs) && Reaches(jobs, Start(s, |jobs|), w) && Ran(s, jobs, log, w)
    requires AllDone(s, log) && job in jobs && Reserve(Serial(s, log), job).1 == Done
    ensures Reaches(jobs, Start(s, |jobs|), v) && Ran(s, jobs, log + [job], v)
  {
    ReachedIsGood(s, jobs, w);
    NotReservedTwice(s, log, job);
    var i: nat :| i < |jobs| && jobs[i] == job;
    v := RunJob(s, jobs, log, w, i);
    ReachesInTurn(jobs, Start(s, |jobs|), w, v);
  }

  lemma {:induction false} RunLog(s: State, jobs: seq<Job>, log: seq<Job>) returns (w: World)
    requires GoodJobs(s, jobs) && AllDone(s, log) && forall job | job in log :: job in jobs
    ensures Reaches(jobs, Start(s, |jobs|), w) && Ran(s, jobs, log, w)
  {
    if log == [] {
      w := Start(s, |jobs|);
      StaysThere(jobs, w);
      StartRan(s, jobs);
    } else {
      var p, z := SplitLog(s, log);
      var u := RunLog(s, jobs, p);
      w := RunNext(s, jobs, p, u, z);
    }
  }

  // ---------- A tangle is reached ----------

  /** Its place in the tangle has been taken, or it has ended. */
  ghost predicate Positioned(inv: Inventory, job: Job, at: Option<nat>, p: Progress) {
    if at.Some? then at.value <= |job.asks| && StandsAt(inv, job, p, at.value) else p.phase != Open
  }

  ghost predicate Untouched(at: Option<nat>, p: Progress) {
    p == Progress(0, map[], Open) || (p.phase == Committed && at.None?)
  }

  /** The first m transactions have taken their places; the others have not begun or have committed. */
  ghost predicate Placed(inv: Inventory, jobs: seq<Job>, at: seq<Option<nat>>, progress: seq<Progress>, m: nat) {
    && |progress| == |jobs| == |at|
    && (forall i | 0 <= i < m && i < |jobs| :: Positioned(inv, jobs[i], at[i], progress[i]))
    && (forall i | m <= i < |jobs| :: Untouched(at[i], progress[i]))
  }

  ghost predicate AllPositive(jobs: seq<Job>) {
    forall i | 0 <= i < |jobs| :: PositiveAsks(jobs[i].asks)
  }

  lemma PositionedRows(inv: Inventory, job: Job, at: Option<nat>, p: Progress, sku: Sku)
    requires PositiveAsks(job.asks) && Positioned(inv, job, at, p) && p.phase == Open
    ensures sku in p.mine <==> AsksFor(Passed(job, at), sku)
  {
    WrittenMeansAsked(inv, job.asks, p, sku);
  }

  lemma PlacedSparesNext(inv: Inventory, jobs: seq<Job>, at: seq<Option<nat>>, progress: seq<Progress>, m: nat, sku: Sku)
    requires Tangle(inv, jobs, at) && Placed(inv, jobs, at, progress, m) && m < |jobs| && AllPositive(jobs)
    requires AsksFor(Passed(jobs[m], at[m]), sku)
    ensures !LockedByOther(progress, m, sku)
  {
    forall j | 0 <= j < |progress| && j != m && progress[j].phase == Open ensures sku !in progress[j].mine {
      if j < m {
        assert Positioned(inv, jobs[j], at[j], progress[j]);
        PositionedRows(inv, jobs[j], at[j], progress[j], sku);
        assert NothingShared(Passed(jobs[m], at[m]), Passed(jobs[j], at[j]));
      } else {
        assert Untouched(at[j], progress[j]);
      }
    }
  }

  lemma PlacedGrows(inv: Inventory, jobs: seq<Job>, at: seq<Option<nat>>, progress: seq<Progress>, m: nat, next: Progress)
    requires Placed(inv, jobs, at, progress, m) && m < |jobs| && Positioned(inv, jobs[m], at[m], next)
    ensures Placed(inv, jobs, at, progress[m := next], m + 1)
  {
    var after := progress[m := next];
    forall i | 0 <= i < m + 1 ensures Positioned(inv, jobs[i], at[i], after[i]) {
      assert i < m ==> Positioned(inv, jobs[i], at[i], progress[i]);
    }
    forall i | m + 1 <= i < |jobs| ensures Untouched(at[i], after[i]) {
      assert Untouched(at[i], progress[i]);
    }
  }

  lemma TakePlace(jobs: seq<Job>, at: seq<Option<nat>>, w: World, m: nat) returns (v: World)
    requires Tangle(w.db.inv, jobs, at) && Placed(w.db.inv, jobs, at, w.progress, m) && m < |jobs| && AllPositive(jobs)
    requires at[m].Some?
    ensures |v.progress| == |jobs| && v == w.(progress := w.progress[m := v.progress[m]])
    ensures Reaches(jobs, w, v)
    ensures Positioned(w.db.inv, jobs[m], at[m], v.progress[m])
  {
    assert HeldUp(w.db.inv, jobs, at, m) && Untouched(at[m], w.progress[m]);
    var mine := jobs[m].asks[..at[m].value];
    forall a | a in mine ensures !LockedByOther(w.progress, m, a.sku) {
      PlacedSparesNext(w.db.inv, jobs, at, w.progress, m, a.sku);
    }
    FreshStands(w.db.inv, jobs[m]);
    v := WalkTo(jobs, w, m, at[m].value);
  }

  lemma PlaceNext(jobs: seq<Job>, at: seq<Option<nat>>, w: World, m: nat) returns (v: World)
    requires Tangle(w.db.inv, jobs, at) && Placed(w.db.inv, jobs, at, w.progress, m) && m < |jobs| && AllPositive(jobs)
    ensures Reaches(jobs, w, v) && v.db == w.db && v.log == w.log && Placed(w.db.inv, jobs, at, v.progress, m + 1)
  {
    if at[m].Some? {
      v := TakePlace(jobs, at, w, m);
    } else if w.progress[m].phase == Open {
      v := Apply(jobs, w, Abort(m));
      ReachesByMove(jobs, w, Abort(m));
    } else {
      v := w;
      StaysThere(jobs, w);
    }
    assert v.progress == w.progress[m := v.progress[m]];
    PlacedGrows(w.db.inv, jobs, at, w.progress, m, v.progress[m]);
  }

  lemma {:induction false} PlaceAll(jobs: seq<Job>, at: seq<Option<nat>>, w: World, m: nat) returns (v: World)
    requires Tangle(w.db.inv, jobs, at) && Placed(w.db.inv, jobs, at, w.progress, m) && m <= |jobs|
    requires AllPositive(jobs)
    ensures Reaches(jobs, w, v) && v.db == w.db && v.log == w.log && Placed(w.db.inv, jobs, at, v.progress, |jobs|)
    decreases |jobs| - m
  {
    if m == |jobs| {
      v := w;
      StaysThere(jobs, w);
    } else {
      var u := PlaceNext(jobs, at, w, m);
      v := PlaceAll(jobs, at, u, m + 1);
      ReachesInTurn(jobs, w, u, v);
    }
  }

  /** A transaction that stands before a row another has passed, and that could go on alone, cannot go on. */
  lemma HeldUpIsStuck(jobs: seq<Job>, w: World, i: nat, j: nat)
    requires i < |jobs| == |w.progress| && j < |jobs| && j != i && w.progress[j].phase == Open
    requires w.progress[i].done < |jobs[i].asks| && Matches(Hold, w.db.inv, jobs[i].asks[w.progress[i].done])
    requires Wanted(jobs, w, i) in w.progress[j].mine && Wanted(jobs, w, i) !in w.progress[i].mine
    ensures !CanMove(jobs, w, i)
  {
    assert LockedByOther(w.progress, i, Wanted(jobs, w, i));
    assert (w.db.inv + w.progress[i].mine)[Wanted(jobs, w, i)] == w.db.inv[Wanted(jobs, w, i)];
  }

  /** Where all stand at the places of a tangle, none can go on. */
  lemma PlacedIsStuck(jobs: seq<Job>, at: seq<Option<nat>>, w: World, i: nat)
    requires Tangle(w.db.inv, jobs, at) && Placed(w.db.inv, jobs, at, w.progress, |jobs|) && i < |jobs| && AllPositive(jobs)
    ensures !CanMove(jobs, w, i)
    ensures at[i].Some? ==> w.progress[i].phase == Open
  {
    assert Positioned(w.db.inv, jobs[i], at[i], w.progress[i]);
    if at[i].Some? {
      assert HeldUp(w.db.inv, jobs, at, i);
      var sku := jobs[i].asks[at[i].value].sku;
      var j :| 0 <= j < |jobs| && j != i && AsksFor(Passed(jobs[j], at[j]), sku);
      assert Positioned(w.db.inv, jobs[j], at[j], w.progress[j]);
      PositionedRows(w.db.inv, jobs[j], at[j], w.progress[j], sku);
      PositionedRows(w.db.inv, jobs[i], at[i], w.progress[i], sku);
      assert NothingShared(Passed(jobs[i], at[i]), Passed(jobs[j], at[j]));
      HeldUpIsStuck(jobs, w, i, j);
    }
  }

  lemma TangleIsReached(s: State, jobs: seq<Job>, log: seq<Job>, at: seq<Option<nat>>)
    requires GoodJobs(s, jobs) && TangleAfter(s, jobs, log, at)
    ensures CanDeadlock(s, jobs)
  {
    forall i | 0 <= i < |jobs| ensures PositiveAsks(jobs[i].asks) {
      assert GoodJob(s, jobs[i]);
    }
    var u := RunLog(s, jobs, log);
    forall i | 0 <= i < |jobs| ensures Untouched(at[i], u.progress[i]) {
      assert RanOrFresh(log, jobs[i], u.progress[i]);
    }
    var w := PlaceAll(jobs, at, u, 0);
    ReachesInTurn(jobs, Start(s, |jobs|), u, w);
    forall i: nat | i < |jobs| ensures !CanMove(jobs, w, i) {
      PlacedIsStuck(jobs, at, w, i);
    }
    var i: nat :| i < |jobs| && at[i].Some?;
    PlacedIsStuck(jobs, at, w, i);
    assert Deadlocked(jobs, w);
  }

  /**
   * Reservations can come to a point where one is open and none can go on without an abort, if and only if after some
   * of them have succeeded one after another, some of the others can stand each before a line whose row another of
   * them has passed, no row having been passed by two and each able to pass its own lines and the next alone.
   */
  lemma DeadlockIff(s: State, jobs: seq<Job>)
    requires GoodJobs(s, jobs)
    ensures CanDeadlock(s, jobs) <==> exists log, at :: TangleAfter(s, jobs, log, at)
  {
    if CanDeadlock(s, jobs) {
      var w :| Reaches(jobs, Start(s, |jobs|), w) && Deadlocked(jobs, w);
      ReachedIsGood(s, jobs, w);
      DeadlockIsTangle(s, jobs, w);
    }
    if exists log, at :: TangleAfter(s, jobs, log, at) {
      var log, at :| TangleAfter(s, jobs, log, at);
      TangleIsReached(s, jobs, log, at);
    }
  }

  // ---------- Two reservations ----------

  /** One stands before line a, the other before line b, and each has passed the row that the other wants. */
  ghost predicate Crossing(inv: Inventory, xs: seq<Ask>, ys: seq<Ask>, a: nat, b: nat) {
    && a < |xs| && b < |ys|
    && Fits(Hold, inv, xs[..a]) && Fits(Hold, inv, ys[..b]) && NothingShared(xs[..a], ys[..b])
    && AsksFor(ys[..b], xs[a].sku) && AsksFor(xs[..a], ys[b].sku)
    && Matches(Hold, inv, xs[a]) && Matches(Hold, inv, ys[b])
  }

  lemma BothStand(inv: Inventory, jobs: seq<Job>, at: seq<Option<nat>>)
    requires |jobs| == 2 && Tangle(inv, jobs, at)
    ensures at[0].Some? && at[1].Some? && HeldUp(inv, jobs, at, 0) && HeldUp(inv, jobs, at, 1)
  {
    var i :| 0 <= i < 2 && at[i].Some?;
    assert HeldUp(inv, jobs, at, i);
  }

  lemma OneIsLogged(jobs: seq<Job>, log: seq<Job>)
    requires |jobs| == 2 && log != [] && forall job | job in log :: job in jobs
    ensures jobs[0] in log || jobs[1] in log
  {
    assert log[0] in log && log[0] in jobs;
  }

  lemma PairTangleIsCrossing(s: State, jobs: seq<Job>, log: seq<Job>, at: seq<Option<nat>>)
    requires |jobs| == 2 && TangleAfter(s, jobs, log, at)
    ensures at[0].Some? && at[1].Some? && Crossing(s.inv, jobs[0].asks, jobs[1].asks, at[0].value, at[1].value)
  {
    BothStand(Serial(s, log).inv, jobs, at);
    if log != [] {
      OneIsLogged(jobs, log);
      assert false;
    }
    assert NothingShared(Passed(jobs[0], at[0]), Passed(jobs[1], at[1]));
  }

  lemma CrossingIsTangle(s: State, jobs: seq<Job>, a: nat, b: nat)
    requires |jobs| == 2 && Crossing(s.inv, jobs[0].asks, jobs[1].asks, a, b)
    ensures TangleAfter(s, jobs, [], [Some(a), Some(b)])
  {
    var at := [Some(a), Some(b)];
    assert at[0].Some?;
    assert Passed(jobs[0], at[0]) == jobs[0].asks[..a] && Passed(jobs[1], at[1]) == jobs[1].asks[..b];
    assert HeldUp(s.inv, jobs, at, 0) && HeldUp(s.inv, jobs, at, 1);
  }

  lemma PairCrosses(s: State, jobs: seq<Job>) returns (a: nat, b: nat)
    requires GoodJobs(s, jobs) && |jobs| == 2 && CanDeadlock(s, jobs)
    ensures Crossing(s.inv, jobs[0].asks, jobs[1].asks, a, b)
  {
    DeadlockIff(s, jobs);
    var log: seq<Job>, at: seq<Option<nat>> :| TangleAfter(s, jobs, log, at);
    PairTangleIsCrossing(s, jobs, log, at);
    a, b := at[0].value, at[1].value;
  }

  /** Two reservations can deadlock exactly when each can pass the row that the other one wants next. */
  lemma PairDeadlocksIff(s: State, jobs: seq<Job>)
    requires GoodJobs(s, jobs) && |jobs| == 2
    ensures CanDeadlock(s, jobs) <==> exists a: nat, b: nat :: Crossing(s.inv, jobs[0].asks, jobs[1].asks, a, b)
  {
    if CanDeadlock(s, jobs) {
      var a, b := PairCrosses(s, jobs);
    }
    if exists a: nat, b: nat :: Crossing(s.inv, jobs[0].asks, jobs[1].asks, a, b) {
      var a: nat, b: nat :| Crossing(s.inv, jobs[0].asks, jobs[1].asks, a, b);
      CrossingIsTangle(s, jobs, a, b);
      TangleIsReached(s, jobs, [], [Some(a), Some(b)]);
    }
  }

  /** Two reservations that begin with the same row cannot deadlock, in whatever order they go on. */
  lemma SharedFirstRowExcludesDeadlock(s: State, jobs: seq<Job>)
    requires GoodJobs(s, jobs) && |jobs| == 2
    requires jobs[0].asks != [] && jobs[1].asks != [] && jobs[0].asks[0].sku == jobs[1].asks[0].sku
    ensures !CanDeadlock(s, jobs)
  {
    PairDeadlocksIff(s, jobs);
    var xs, ys := jobs[0].asks, jobs[1].asks;
    forall a: nat, b: nat ensures !Crossing(s.inv, xs, ys, a, b) {
      if Crossing(s.inv, xs, ys, a, b) {
        assert xs[0] in xs[..a] && ys[0] in ys[..b];
        assert AsksFor(xs[..a], xs[0].sku) && AsksFor(ys[..b], xs[0].sku);
        assert false;
      }
    }
  }

  // ---------- Two SKUs in opposite orders ----------

  ghost predicate TwoFree(inv: Inventory, sku: Sku) {
    sku in inv && inv[sku].active && inv[sku].stock - inv[sku].reserved >= 2
  }

  ghost predicate Opposed(jobs: seq<Job>, x: Sku, y: Sku) {
    && |jobs| == 2 && x != y
    && jobs[0].asks == [Ask(x, 1), Ask(y, 1)] && jobs[1].asks == [Ask(y, 1), Ask(x, 1)]
  }

  function FirstOf(inv: Inventory, sku: Sku): Progress
    requires sku in inv
  {
    Progress(1, map[sku := Moved(Hold, inv[sku], 1, 1)], Open)
  }

  /** Each transaction has written its first row. */
  function Crossed(s: State, x: Sku, y: Sku): World
    requires x in s.inv && y in s.inv
  {
    World(s, [FirstOf(s.inv, x), FirstOf(s.inv, y)], [])
  }

  lemma FirstStatement(jobs: seq<Job>, w: World, i: nat, sku: Sku)
    requires i < |jobs| == |w.progress| && w.progress[i] == Progress(0, map[], Open)
    requires jobs[i].asks != [] && jobs[i].asks[0] == Ask(sku, 1) && TwoFree(w.db.inv, sku)
    requires !LockedByOther(w.progress, i, sku)
    ensures Enabled(jobs, w, Statement(i))
    ensures Apply(jobs, w, Statement(i)) == w.(progress := w.progress[i := FirstOf(w.db.inv, sku)])
  {
    assert w.db.inv + map[] == w.db.inv;
    assert map[][sku := Moved(Hold, w.db.inv[sku], 1, 1)] == FirstOf(w.db.inv, sku).mine;
  }

  lemma CrossedIsReached(s: State, jobs: seq<Job>, x: Sku, y: Sku)
    requires Opposed(jobs, x, y) && TwoFree(s.inv, x) && TwoFree(s.inv, y)
    ensures Schedule(jobs, Start(s, 2), [Statement(0), Statement(1)])
    ensures After(jobs, Start(s, 2), [Statement(0), Statement(1)]) == Crossed(s, x, y)
  {
    var w, moves := Start(s, 2), [Statement(0), Statement(1)];
    FirstStatement(jobs, w, 0, x);
    var v := Apply(jobs, w, Statement(0));
    FirstStatement(jobs, v, 1, y);
    assert moves[1..] == [Statement(1)] && moves[1..][1..] == [];
    assert Apply(jobs, v, Statement(1)) == Crossed(s, x, y);
    assert Schedule(jobs, v, moves[1..]);
  }

  lemma OpposedOrdersCross(inv: Inventory, jobs: seq<Job>, x: Sku, y: Sku)
    requires Opposed(jobs, x, y) && TwoFree(inv, x) && TwoFree(inv, y)
    ensures Crossing(inv, jobs[0].asks, jobs[1].asks, 1, 1)
  {
    var xs, ys := jobs[0].asks, jobs[1].asks;
    assert xs[..1] == [Ask(x, 1)] && ys[..1] == [Ask(y, 1)];
    OneFits(inv, x);
    OneFits(inv, y);
    assert Ask(x, 1) in xs[..1] && Ask(y, 1) in ys[..1];
  }

  lemma OneFits(inv: Inventory, x: Sku)
    requires TwoFree(inv, x)
    ensures Fits(Hold, inv, [Ask(x, 1)])
  {
    assert [] + [Ask(x, 1)] == [Ask(x, 1)];
    DemandAppends([], Ask(x, 1), x);
  }

  lemma PairFits(inv: Inventory, a: Sku, b: Sku, taken: Inventory)
    requires a != b && TwoFree(inv, a) && TwoFree(inv, b)
    requires taken == MovedAll(Hold, inv, [Ask(b, 1), Ask(a, 1)]) || taken == inv
    ensures Fits(Hold, taken, [Ask(a, 1), Ask(b, 1)])
  {
    PairDemand(a, b);
    PairDemand(b, a);
  }

  lemma PairDemand(a: Sku, b: Sku)
    requires a != b
    ensures Demand([Ask(a, 1), Ask(b, 1)], a) == 1 && Demand([Ask(a, 1), Ask(b, 1)], b) == 1
  {
    assert [Ask(a, 1), Ask(b, 1)] == [] + [Ask(a, 1)] + [Ask(b, 1)];
    DemandAppends([], Ask(a, 1), a);
    DemandAppends([], Ask(a, 1), b);
    DemandAppends([] + [Ask(a, 1)], Ask(b, 1), a);
    DemandAppends([] + [Ask(a, 1)], Ask(b, 1), b);
  }

  lemma CrossedIsStuck(s: State, jobs: seq<Job>, x: Sku, y: Sku)
    requires Opposed(jobs, x, y) && TwoFree(s.inv, x) && TwoFree(s.inv, y)
    ensures forall i: nat | i < 2 :: !CanMove(jobs, Crossed(s, x, y), i)
  {
    HeldUpIsStuck(jobs, Crossed(s, x, y), 0, 1);
    HeldUpIsStuck(jobs, Crossed(s, x, y), 1, 0);
  }

  lemma OpposedOrdersSucceed(s: State, jobs: seq<Job>, x: Sku, y: Sku)
    requires GoodJobs(s, jobs) && Opposed(jobs, x, y) && TwoFree(s.inv, x) && TwoFree(s.inv, y)
    ensures Reserve(s, jobs[0]).1 == Done && Reserve(Reserve(s, jobs[0]).0, jobs[1]).1 == Done
  {
    assert GoodJob(s, jobs[0]) && GoodJob(s, jobs[1]) && jobs[0].order != jobs[1].order;
    PairFits(s.inv, x, y, s.inv);
    FittingJobIsReserved(s, jobs[0]);
    var t := Reserve(s, jobs[0]).0;
    PairFits(s.inv, y, x, t.inv);
    FittingJobIsReserved(t, jobs[1]);
  }

  /**
   * With two free units of each SKU both reservations succeed one after the other, yet they can deadlock: the schedule in
   * which each writes its first row ends where neither can go on, and the database has to abort one of them.
   */
  lemma OpposedOrdersDeadlock(s: State, jobs: seq<Job>, x: Sku, y: Sku)
    requires GoodJobs(s, jobs) && Opposed(jobs, x, y) && TwoFree(s.inv, x) && TwoFree(s.inv, y)
    ensures CanDeadlock(s, jobs)
    ensures var moves := [Statement(0), Statement(1)];
            && Schedule(jobs, Start(s, 2), moves)
            && forall i: nat | i < 2 :: !CanMove(jobs, After(jobs, Start(s, 2), moves), i)
    ensures Reserve(s, jobs[0]).1 == Done && Reserve(Reserve(s, jobs[0]).0, jobs[1]).1 == Done
  {
    OpposedOrdersCross(s.inv, jobs, x, y);
    PairDeadlocksIff(s, jobs);
    CrossedIsReached(s, jobs, x, y);
    CrossedIsStuck(s, jobs, x, y);
    OpposedOrdersSucceed(s, jobs, x, y);
  }

  // ---------- A concrete shop ----------

  function Piece(sku: Sku): OrderLine {
    OrderLine(sku, None, 1, 100, 100)
  }

  function Cart(lines: seq<OrderLine>): Order {
    Order(lines, OrderConfirmed, None, NoApproval, None, 200)
  }

  /** Two confirmed orders of the same two pieces, listed the other way round. */
  function TwoOrders(): State {
    var it := Item("Piece", None, 100, None, 2, 0, true, 1);
    State(map["x" := it, "y" := it], [],
          map["first" := Cart([Piece("x"), Piece("y")]), "second" := Cart([Piece("y"), Piece("x")])], [], map[], map[])
  }

  function TwoJobs(): seq<Job> {
    [Job("first", [Ask("x", 1), Ask("y", 1)], 0, 900), Job("second", [Ask("y", 1), Ask("x", 1)], 0, 900)]
  }

  /** Both orders can be reserved one after the other, yet their reservations can deadlock. */
  lemma TwoOrdersDeadlock()
    ensures var s, jobs := TwoOrders(), TwoJobs();
            && GoodJobs(s, jobs) && CanDeadlock(s, jobs)
            && Reserve(s, jobs[0]).1 == Done && Reserve(Reserve(s, jobs[0]).0, jobs[1]).1 == Done
  {
    var s, jobs := TwoOrders(), TwoJobs();
    assert GoodJob(s, jobs[0]) && GoodJob(s, jobs[1]);
    OpposedOrdersDeadlock(s, jobs, "x", "y");
  }
}
