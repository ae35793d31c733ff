/** The sliding-window rate limiter: bounded queues of recent times against the full history of accepted requests. */
module RateLimiter {

  type Client = string
  type Queues = map<Client, seq<int>>

  /** A request at a time, or a pruning at a time. */
  datatype Call = Request(client: Client, now: int) | Prune(now: int)

  datatype Limits = Limits(max: int, window: nat)

  // ---------- The limiter's steps ----------

  function Queue(queues: Queues, client: Client): seq<int> {
    if client in queues then queues[client] else []
  }

  /** The queue without the expired times at its front. */
  function Evicted(queue: seq<int>, cutoff: int): seq<int> {
    if queue != [] && queue[0] < cutoff then Evicted(queue[1..], cutoff) else queue
  }

  function Admit(queues: Queues, limits: Limits, client: Client, now: int): (Queues, bool) {
    var queue := Evicted(Queue(queues, client), now - limits.window);
    if |queue| >= limits.max then (queues[client := queue], false)
    else (queues[client := queue + [now]], true)
  }

  predicate Stale(queue: seq<int>, cutoff: int) {
    queue == [] || queue[|queue|-1] < cutoff
  }

  function Pruned(queues: Queues, limits: Limits, now: int): Queues {
    map client | client in queues && !Stale(queues[client], now - limits.window) :: queues[client]
  }

  lemma PrunedIsDifference(queues: Queues, limits: Limits, now: int, stale: set<Client>)
    requires stale == set k | k in queues && Stale(queues[k], now - limits.window)
    ensures queues - stale == Pruned(queues, limits, now)
    ensures |stale| == |queues.Keys| - |Pruned(queues, limits, now).Keys|
  {
    assert stale <= queues.Keys;
    assert Pruned(queues, limits, now).Keys == queues.Keys - stale;
  }

  class Limiter {
    const limits: Limits
    var clients: Queues

    constructor (limits: Limits)
      ensures this.limits == limits && clients == map[]
    {
      this.limits := limits;
      clients := map[];
    }

    method IsAllowed(client: Client, now: int) returns (ok: bool)
      modifies this
      ensures (clients, ok) == Admit(old(clients), limits, client, now)
    {
      var cutoff := now - limits.window;
      var queue := Queue(clients, client);
      while queue != [] && queue[0] < cutoff
        invariant Evicted(queue, cutoff) == Evicted(Queue(clients, client), cutoff)
        decreases |queue|
      {
        queue := queue[1..];
      }
      if |queue| >= limits.max {
        clients := clients[client := queue];
        return false;
      }
      clients := clients[client := queue + [now]];
      return true;
    }

    method PruneStale(now: int) returns (removed: nat)
      modifies this
      ensures clients == Pruned(old(clients), limits, now)
      ensures removed == |old(clients).Keys| - |clients.Keys|
    {
      var cutoff := now - limits.window;
      var stale := set k | k in clients && Stale(clients[k], cutoff);
      ghost var before := clients;
      var left := stale;
      removed := 0;
      while left != {}
        invariant left <= stale
        invariant clients == before - (stale - left)
        invariant removed == |stale| - |left|
        decreases |left|
      {
        var k :| k in left;
        assert stale - (left - {k}) == (stale - left) + {k};
        clients := clients - {k};
        left := left - {k};
        removed := removed + 1;
      }
      assert stale - left == stale;
      PrunedIsDifference(before, limits, now, stale);
    }
  }

  // ---------- The reference: nothing is ever forgotten ----------

  /** How many times lie in a closed interval. */
  function Count(times: seq<int>, from: int, to: int): (n: nat)
    ensures n <= |times|
  {
    if times == [] then 0
    else Count(times[..|times|-1], from, to) + (if from <= times[|times|-1] <= to then 1 else 0)
  }

  predicate Allows(history: seq<int>, limits: Limits, now: int) {
    Count(history, now - limits.window, now) < limits.max
  }

  /** The full history after a call: an accepted request is added, nothing is ever removed. */
  function Recorded(history: Queues, limits: Limits, call: Call): Queues {
    if call.Request? && Allows(Queue(history, call.client), limits, call.now)
    then history[call.client := Queue(history, call.client) + [call.now]]
    else history
  }

  // ---------- Runs ----------

  function Served(queues: Queues, limits: Limits, call: Call): Queues {
    if call.Request? then Admit(queues, limits, call.client, call.now).0 else Pruned(queues, limits, call.now)
  }

  function Answers(queues: Queues, limits: Limits, calls: seq<Call>): seq<bool>
    decreases |calls|
  {
    if calls == [] then []
    else if calls[0].Request? then
      [Admit(queues, limits, calls[0].client, calls[0].now).1] + Answers(Served(queues, limits, calls[0]), limits, calls[1..])
    else Answers(Served(queues, limits, calls[0]), limits, calls[1..])
  }

  /** What counting the full history answers to the requests alone. */
  function CountedAnswers(history: Queues, limits: Limits, requests: seq<Call>): seq<bool>
    decreases |requests|
  {
    if requests == [] then []
    else if requests[0].Request? then
      [Allows(Queue(history, requests[0].client), limits, requests[0].now)]
      + CountedAnswers(Recorded(history, limits, requests[0]), limits, requests[1..])
    else CountedAnswers(history, limits, requests[1..])
  }

  function RequestsOf(calls: seq<Call>): seq<Call> {
    if calls == [] then []
    else if calls[0].Request? then [calls[0]] + RequestsOf(calls[1..])
    else RequestsOf(calls[1..])
  }

  function History(history: Queues, limits: Limits, calls: seq<Call>): Queues
    decreases |calls|
  {
    if calls == [] then history else History(Recorded(history, limits, calls[0]), limits, calls[1..])
  }

  /** The clock never runs backwards. */
  ghost predicate InOrder(calls: seq<Call>, clock: int) {
    calls != [] ==> clock <= calls[0].now && InOrder(calls[1..], calls[0].now)
  }

  // ---------- A queue is the part of the history that still matters ----------

  ghost predicate Ordered(times: seq<int>, clock: int) {
    && (forall i, j | 0 <= i < j < |times| :: times[i] <= times[j])
    && (forall i | 0 <= i < |times| :: times[i] <= clock)
  }

  ghost predicate Follows(queue: seq<int>, times: seq<int>, cutoff: int) {
    && |queue| <= |times|
    && times[|times|-|queue|..] == queue
    && forall i | 0 <= i < |times| - |queue| :: times[i] < cutoff
  }

  ghost predicate LinkedAt(queue: seq<int>, times: seq<int>, limits: Limits, clock: int) {
    Ordered(times, clock) && Follows(queue, times, clock - limits.window)
  }

  ghost predicate Linked(queues: Queues, history: Queues, limits: Limits, clock: int) {
    forall k: Client :: LinkedAt(Queue(queues, k), Queue(history, k), limits, clock)
  }

  lemma LinkedLater(queue: seq<int>, times: seq<int>, limits: Limits, clock: int, now: int)
    requires LinkedAt(queue, times, limits, clock) && clock <= now
    ensures LinkedAt(queue, times, limits, now)
  {
  }

  lemma {:induction false} EvictedFollows(queue: seq<int>, times: seq<int>, cutoff: int)
    requires Follows(queue, times, cutoff) && (forall i, j | 0 <= i < j < |times| :: times[i] <= times[j])
    ensures Follows(Evicted(queue, cutoff), times, cutoff)
    ensures forall i | 0 <= i < |Evicted(queue, cutoff)| :: Evicted(queue, cutoff)[i] >= cutoff
    decreases |queue|
  {
    if queue != [] && queue[0] < cutoff {
      assert times[|times|-|queue|] == queue[0];
      assert times[|times|-|queue[1..]|..] == queue[1..];
      EvictedFollows(queue[1..], times, cutoff);
    }
    forall i | 0 <= i < |queue| ensures queue[i] == times[|times|-|queue|+i] {
    }
  }

  lemma {:induction false} NoneInside(times: seq<int>, from: int, to: int)
    requires forall i | 0 <= i < |times| :: times[i] < from
    ensures Count(times, from, to) == 0
  {
    if times != [] {
      NoneInside(times[..|times|-1], from, to);
    }
  }

  lemma {:induction false} AllInside(times: seq<int>, from: int, to: int)
    requires forall i | 0 <= i < |times| :: from <= times[i] <= to
    ensures Count(times, from, to) == |times|
  {
    if times != [] {
      AllInside(times[..|times|-1], from, to);
    }
  }

  lemma {:induction false} CountSplits(xs: seq<int>, ys: seq<int>, from: int, to: int)
    ensures Count(xs + ys, from, to) == Count(xs, from, to) + Count(ys, from, to)
  {
    if ys == [] {
      assert xs + ys == xs;
    } else {
      assert (xs + ys)[..|xs + ys|-1] == xs + ys[..|ys|-1];
      CountSplits(xs, ys[..|ys|-1], from, to);
    }
  }

  /** A queue of unexpired times is as long as the count of the whole history in the window. */
  lemma QueueCounts(kept: seq<int>, times: seq<int>, cutoff: int, now: int)
    requires Ordered(times, now) && Follows(kept, times, cutoff)
    requires forall i | 0 <= i < |kept| :: kept[i] >= cutoff
    ensures |kept| == Count(times, cutoff, now)
  {
    var n := |times| - |kept|;
    assert times == times[..n] + kept;
    forall i | 0 <= i < |kept| ensures kept[i] <= now {
      assert kept[i] == times[n + i];
    }
    CountSplits(times[..n], kept, cutoff, now);
    NoneInside(times[..n], cutoff, now);
    AllInside(kept, cutoff, now);
  }

  lemma AdmitOne(queue: seq<int>, times: seq<int>, limits: Limits, clock: int, now: int)
    requires LinkedAt(queue, times, limits, clock) && clock <= now
    ensures var kept := Evicted(queue, now - limits.window);
            && (|kept| < limits.max <==> Allows(times, limits, now))
            && LinkedAt(kept, times, limits, now) && LinkedAt(kept + [now], times + [now], limits, now)
  {
    var cutoff := now - limits.window;
    var kept := Evicted(queue, cutoff);
    LinkedLater(queue, times, limits, clock, now);
    EvictedFollows(queue, times, cutoff);
    QueueCounts(kept, times, cutoff, now);
    assert (times + [now])[|times|-|kept|..] == kept + [now];
  }

  lemma AdmitStep(queues: Queues, history: Queues, limits: Limits, clock: int, client: Client, now: int)
    requires Linked(queues, history, limits, clock) && clock <= now
    ensures Admit(queues, limits, client, now).1 == Allows(Queue(history, client), limits, now)
    ensures Linked(Admit(queues, limits, client, now).0, Recorded(history, limits, Request(client, now)), limits, now)
  {
    AdmitOne(Queue(queues, client), Queue(history, client), limits, clock, now);
    var after, recorded := Admit(queues, limits, client, now).0, Recorded(history, limits, Request(client, now));
    forall k: Client ensures LinkedAt(Queue(after, k), Queue(recorded, k), limits, now) {
      if k != client {
        assert Queue(after, k) == Queue(queues, k) && Queue(recorded, k) == Queue(history, k);
        LinkedLater(Queue(queues, k), Queue(history, k), limits, clock, now);
      }
    }
  }

  lemma PruneOne(queue: seq<int>, times: seq<int>, limits: Limits, now: int)
    requires LinkedAt(queue, times, limits, now) && Stale(queue, now - limits.window)
    ensures LinkedAt([], times, limits, now)
  {
    if queue != [] {
      assert times[|times|-1] == queue[|queue|-1];
    }
  }

  lemma PruneStep(queues: Queues, history: Queues, limits: Limits, clock: int, now: int)
    requires Linked(queues, history, limits, clock) && clock <= now
    ensures Linked(Pruned(queues, limits, now), history, limits, now)
  {
    forall k: Client ensures LinkedAt(Queue(Pruned(queues, limits, now), k), Queue(history, k), limits, now) {
      LinkedLater(Queue(queues, k), Queue(history, k), limits, clock, now);
      if Stale(Queue(queues, k), now - limits.window) {
        PruneOne(Queue(queues, k), Queue(history, k), limits, now);
      }
    }
  }

  /** The limiter answers every request as if it counted the whole history of accepted ones. */
  lemma {:induction false} AnswersCountTheHistory(queues: Queues, history: Queues, limits: Limits, clock: int, calls: seq<Call>)
    requires Linked(queues, history, limits, clock) && InOrder(calls, clock)
    ensures Answers(queues, limits, calls) == CountedAnswers(history, limits, RequestsOf(calls))
    decreases |calls|
  {
    if calls != [] {
      var call := calls[0];
      if call.Request? {
        AdmitStep(queues, history, limits, clock, call.client, call.now);
        assert RequestsOf(calls)[1..] == RequestsOf(calls[1..]);
      } else {
        PruneStep(queues, history, limits, clock, call.now);
      }
      AnswersCountTheHistory(Served(queues, limits, call), Recorded(history, limits, call), limits, call.now, calls[1..]);
    }
  }

  /** Pruning, whenever it happens, changes no answer. */
  lemma PruningIsInvisible(limits: Limits, clock: int, some: seq<Call>, others: seq<Call>)
    requires InOrder(some, clock) && InOrder(others, clock) && RequestsOf(some) == RequestsOf(others)
    ensures Answers(map[], limits, some) == Answers(map[], limits, others)
  {
    AnswersCountTheHistory(map[], map[], limits, clock, some);
    AnswersCountTheHistory(map[], map[], limits, clock, others);
  }

  // ---------- No window holds too many ----------

  ghost predicate Limited(times: seq<int>, limits: Limits) {
    forall from, to | to == from + limits.window :: Count(times, from, to) <= limits.max
  }

  ghost predicate AllLimited(history: Queues, limits: Limits, clock: int) {
    forall k | k in history :: Limited(history[k], limits) && Ordered(history[k], clock)
  }

  lemma {:induction false} NarrowerCountsLess(times: seq<int>, from: int, to: int, low: int, high: int)
    requires low <= from && forall i | 0 <= i < |times| :: times[i] <= high
    ensures Count(times, from, to) <= Count(times, low, high)
  {
    if times != [] {
      NarrowerCountsLess(times[..|times|-1], from, to, low, high);
    }
  }

  lemma AcceptedStaysLimited(times: seq<int>, limits: Limits, now: int)
    requires Limited(times, limits) && Ordered(times, now) && Allows(times, limits, now)
    ensures Limited(times + [now], limits)
  {
    assert (times + [now])[..|times|] == times;
    forall from, to | to == from + limits.window ensures Count(times + [now], from, to) <= limits.max {
      assert Count(times, from, to) <= limits.max;
      if from <= now <= to {
        NarrowerCountsLess(times, from, to, now - limits.window, now);
      }
    }
  }

  lemma {:induction false} HistoryStaysLimited(history: Queues, limits: Limits, clock: int, calls: seq<Call>)
    requires AllLimited(history, limits, clock) && InOrder(calls, clock)
    ensures forall k | k in History(history, limits, calls) :: Limited(History(history, limits, calls)[k], limits)
    decreases |calls|
  {
    if calls != [] {
      var call := calls[0];
      var next := Recorded(history, limits, call);
      if call.Request? && Allows(Queue(history, call.client), limits, call.now) {
        var times := Queue(history, call.client);
        if call.client !in history {
          assert Limited([], limits);
        }
        AcceptedStaysLimited(times, limits, call.now);
      }
      assert AllLimited(next, limits, call.now);
      HistoryStaysLimited(next, limits, call.now, calls[1..]);
    }
  }

  /** The times at which the limiter itself answered a client's requests with yes. */
  function AcceptedTimes(queues: Queues, limits: Limits, calls: seq<Call>, client: Client): seq<int>
    decreases |calls|
  {
    if calls == [] then []
    else
      var rest := AcceptedTimes(Served(queues, limits, calls[0]), limits, calls[1..], client);
      if calls[0].Request? && calls[0].client == client && Admit(queues, limits, client, calls[0].now).1
      then [calls[0].now] + rest else rest
  }

  lemma StaysLinked(queues: Queues, history: Queues, limits: Limits, clock: int, call: Call)
    requires Linked(queues, history, limits, clock) && clock <= call.now
    ensures Linked(Served(queues, limits, call), Recorded(history, limits, call), limits, call.now)
    ensures call.Request? ==>
              Admit(queues, limits, call.client, call.now).1 == Allows(Queue(history, call.client), limits, call.now)
  {
    if call.Request? {
      AdmitStep(queues, history, limits, clock, call.client, call.now);
    } else {
      PruneStep(queues, history, limits, clock, call.now);
    }
  }

  /** What one call appends to a client's history. */
  function Grown(history: Queues, limits: Limits, call: Call, client: Client): seq<int> {
    if call.Request? && call.client == client && Allows(Queue(history, client), limits, call.now) then [call.now] else []
  }

  lemma RecordedGrows(history: Queues, limits: Limits, call: Call, client: Client)
    ensures Queue(Recorded(history, limits, call), client) == Queue(history, client) + Grown(history, limits, call, client)
  {
  }

  lemma AcceptedGrows(queues: Queues, history: Queues, limits: Limits, calls: seq<Call>, client: Client)
    requires calls != []
    requires calls[0].Request? ==>
               Admit(queues, limits, calls[0].client, calls[0].now).1 == Allows(Queue(history, calls[0].client), limits, calls[0].now)
    ensures AcceptedTimes(queues, limits, calls, client) ==
            Grown(history, limits, calls[0], client)
            + AcceptedTimes(Served(queues, limits, calls[0]), limits, calls[1..], client)
  {
  }

  lemma {:induction false} AcceptedIsHistory(queues: Queues, history: Queues, limits: Limits, clock: int, calls: seq<Call>, client: Client)
    requires Linked(queues, history, limits, clock) && InOrder(calls, clock)
    ensures Queue(History(history, limits, calls), client) == Queue(history, client) + AcceptedTimes(queues, limits, calls, client)
    decreases |calls|
  {
    if calls != [] {
      var call := calls[0];
      StaysLinked(queues, history, limits, clock, call);
      AcceptedIsHistory(Served(queues, limits, call), Recorded(history, limits, call), limits, call.now, calls[1..], client);
      RecordedGrows(history, limits, call, client);
      AcceptedGrows(queues, history, limits, calls, client);
      Join(Queue(history, client), Grown(history, limits, call, client),
           AcceptedTimes(Served(queues, limits, call), limits, calls[1..], client));
    }
  }

  lemma Join(a: seq<int>, b: seq<int>, c: seq<int>)
    ensures (a + b) + c == a + (b + c)
  {
  }

  /**
   * Over any run of a new limiter, no closed interval as long as the window holds more of the times at which it said
   * yes to a client than allowed.
   */
  lemma NoWindowOverflows(limits: Limits, clock: int, calls: seq<Call>, client: Client, from: int)
    requires InOrder(calls, clock)
    ensures var times := AcceptedTimes(map[], limits, calls, client);
            Count(times, from, from + limits.window) <= if limits.max > 0 then limits.max else 0
  {
    var history := History(map[], limits, calls);
    AcceptedIsHistory(map[], map[], limits, clock, calls, client);
    HistoryStaysLimited(map[], limits, clock, calls);
    assert Queue(history, client) == AcceptedTimes(map[], limits, calls, client);
  }
}
