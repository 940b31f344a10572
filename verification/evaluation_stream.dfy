/**
 One evaluation run: the cases are dealt out to workers in strides, the workers put results into a
 queue, and one consumer takes as many as there are cases, writing them in batches.

 Tasks run undisturbed between awaits; any worker may go next. Scoring a case may raise, which the
 worker reports through the queue. A worker may also end without a word: when creating or entering
 its session raises (which connects to nothing yet: the first query does, while a case is scored), or
 when what is raised is not an `Exception`, such as a cancellation.
 */
module EvaluationStream {
  import opened Prelude

  type CaseId = nat

  datatype CaseResult = CaseResult(caseId: CaseId, passed: bool, score: real)

  datatype Message = Scored(result: CaseResult) | Broke

  datatype Status = Opening | Working | Silent | Errored

  datatype Worker = Worker(status: Status, remaining: seq<CaseId>)

  datatype Consumer = Consuming | Finished | Raised

  datatype World = World(workers: seq<Worker>, queue: seq<Message>, got: seq<CaseResult>, consumer: Consumer, total: nat)

  datatype Event =
    | Open(worker: nat)
    | FailToOpen(worker: nat)
    | Abandon(worker: nat)
    | Score(worker: nat, passed: bool, score: real)
    | Break(worker: nat)
    | Get

  // ---------------------------------------------------------------- dealing out the cases

  /** The slice `cases[from::step]`. */
  function Stride(cases: seq<CaseId>, step: nat, from: nat): seq<CaseId>
    requires step > 0
    decreases |cases| - from
  {
    if from >= |cases| then [] else [cases[from]] + Stride(cases, step, from + step)
  }

  function Deal(cases: seq<CaseId>, step: nat, n: nat): seq<seq<CaseId>>
    requires step > 0 && n <= step
  {
    if n == 0 then [] else Deal(cases, step, n - 1) + [Stride(cases, step, n - 1)]
  }

  /** One worker for each batch that is not empty. */
  function WorkersFor(batches: seq<seq<CaseId>>): seq<Worker> {
    if batches == [] then []
    else
      var earlier := WorkersFor(batches[..|batches| - 1]);
      if batches[|batches| - 1] == [] then earlier else earlier + [Worker(Opening, batches[|batches| - 1])]
  }

  /** How often the case occurs; without a case, how many occur in all. */
  function Tally(s: seq<CaseId>, c: Option<CaseId>): nat {
    match c
    case None => |s|
    case Some(id) => multiset(s)[id]
  }

  function Together(batches: seq<seq<CaseId>>, c: Option<CaseId>): nat {
    if batches == [] then 0 else Together(batches[..|batches| - 1], c) + Tally(batches[|batches| - 1], c)
  }

  lemma TallyAppend(a: seq<CaseId>, b: seq<CaseId>, c: Option<CaseId>)
    ensures Tally(a + b, c) == Tally(a, c) + Tally(b, c)
  {
  }

  lemma TallyOfNothing(c: Option<CaseId>)
    ensures Tally([], c) == 0
  {
  }

  lemma TallyDetermines(a: seq<CaseId>, b: seq<CaseId>)
    requires forall c :: Tally(a, c) == Tally(b, c)
    ensures multiset(a) == multiset(b)
  {
    forall id: CaseId ensures multiset(a)[id] == multiset(b)[id] {
      assert Tally(a, Some(id)) == Tally(b, Some(id));
    }
  }

  /** The stride that position `n` falls into. */
  function Lane(n: nat, step: nat): (lane: nat)
    requires step > 0
    ensures lane < step
    decreases n
  {
    if n < step then n else Lane(n - step, step)
  }

  /** Counting up from `from` by `step` meets `n`. */
  predicate Meets(n: nat, step: nat, from: nat)
    requires step > 0
    decreases n - from
  {
    from == n || (from < n && Meets(n, step, from + step))
  }

  lemma {:induction false} MeetsShifted(n: nat, step: nat, from: nat)
    requires step > 0
    ensures Meets(n + step, step, from + step) <==> Meets(n, step, from)
    decreases n - from
  {
    if from < n {
      MeetsShifted(n, step, from + step);
    }
  }

  /** Each position is in one stride and no other. */
  lemma {:induction false} OneLaneEach(n: nat, step: nat, from: nat)
    requires from < step
    ensures Meets(n, step, from) <==> from == Lane(n, step)
    decreases n
  {
    if n >= step {
      MeetsShifted(n - step, step, from);
      OneLaneEach(n - step, step, from);
    }
  }

  lemma {:induction false} StrideAppend(cases: seq<CaseId>, x: CaseId, step: nat, from: nat)
    requires step > 0
    ensures Stride(cases + [x], step, from)
            == Stride(cases, step, from) + (if Meets(|cases|, step, from) then [x] else [])
    decreases |cases| - from
  {
    if from < |cases| {
      StrideAppend(cases, x, step, from + step);
    }
  }

  lemma StrideGrows(cases: seq<CaseId>, x: CaseId, step: nat, from: nat, c: Option<CaseId>)
    requires from < step
    ensures Tally(Stride(cases + [x], step, from), c)
            == Tally(Stride(cases, step, from), c) + (if Lane(|cases|, step) == from then Tally([x], c) else 0)
  {
    hide Tally, Lane, Meets, Stride;
    StrideAppend(cases, x, step, from);
    OneLaneEach(|cases|, step, from);
    TallyAppend(Stride(cases, step, from), [x], c);
    assert Stride(cases, step, from) + [] == Stride(cases, step, from);
  }

  /** The tally of the first `n` strides, one by one. */
  function Dealt(cases: seq<CaseId>, step: nat, n: nat, c: Option<CaseId>): nat
    requires step > 0 && n <= step
  {
    if n == 0 then 0 else Dealt(cases, step, n - 1, c) + Tally(Stride(cases, step, n - 1), c)
  }

  lemma TogetherAppend(batches: seq<seq<CaseId>>, b: seq<CaseId>, c: Option<CaseId>)
    ensures Together(batches + [b], c) == Together(batches, c) + Tally(b, c)
  {
    assert (batches + [b])[..|batches|] == batches;
  }

  lemma {:induction false} DealtTogether(cases: seq<CaseId>, step: nat, n: nat, c: Option<CaseId>)
    requires step > 0 && n <= step
    ensures Together(Deal(cases, step, n), c) == Dealt(cases, step, n, c)
  {
    hide Tally, Stride;
    if n > 0 {
      DealtTogether(cases, step, n - 1, c);
      TogetherAppend(Deal(cases, step, n - 1), Stride(cases, step, n - 1), c);
    }
  }

  lemma {:induction false} DealtAppend(cases: seq<CaseId>, x: CaseId, step: nat, n: nat, c: Option<CaseId>)
    requires step > 0 && n <= step
    ensures Dealt(cases + [x], step, n, c)
            == Dealt(cases, step, n, c) + (if Lane(|cases|, step) < n then Tally([x], c) else 0)
  {
    hide Tally, Stride, Lane;
    if n > 0 {
      DealtAppend(cases, x, step, n - 1, c);
      StrideGrows(cases, x, step, n - 1, c);
    }
  }

  lemma {:induction false} NothingDealt(step: nat, n: nat, c: Option<CaseId>)
    requires step > 0 && n <= step
    ensures Dealt([], step, n, c) == 0
  {
    if n > 0 {
      hide Tally;
      NothingDealt(step, n - 1, c);
      TallyOfNothing(c);
    }
  }

  lemma {:induction false} EachIsDealt(cases: seq<CaseId>, step: nat, c: Option<CaseId>)
    requires step > 0
    ensures Dealt(cases, step, step, c) == Tally(cases, c)
  {
    hide Tally, Dealt;
    if cases == [] {
      NothingDealt(step, step, c);
      TallyOfNothing(c);
    } else {
      var init, last := cases[..|cases| - 1], cases[|cases| - 1];
      assert cases == init + [last];
      EachIsDealt(init, step, c);
      DealtAppend(init, last, step, step, c);
      TallyAppend(init, [last], c);
    }
  }

  /** The strides partition the cases: each occurs in them as often as it was given. */
  lemma StridesPartition(cases: seq<CaseId>, step: nat, c: Option<CaseId>)
    requires step > 0
    ensures Together(Deal(cases, step, step), c) == Tally(cases, c)
  {
    DealtTogether(cases, step, step, c);
    EachIsDealt(cases, step, c);
  }

  // ---------------------------------------------------------------- the transitions

  /** The tally of the cases that workers have yet to report on. */
  function Remaining(workers: seq<Worker>, c: Option<CaseId>): nat {
    if workers == [] then 0
    else Remaining(workers[..|workers| - 1], c) + Tally(workers[|workers| - 1].remaining, c)
  }

  function CasesOf(results: seq<CaseResult>): seq<CaseId> {
    seq(|results|, i requires 0 <= i < |results| => results[i].caseId)
  }

  /** The results among the messages. */
  function ResultsIn(queue: seq<Message>): seq<CaseResult> {
    if queue == [] then []
    else if queue[0].Broke? then ResultsIn(queue[1..])
    else [queue[0].result] + ResultsIn(queue[1..])
  }

  function Start(cases: seq<CaseId>, concurrency: int): World {
    var step := Max(1, concurrency);
    World(WorkersFor(Deal(cases, step, step)), [], [], if cases == [] then Finished else Consuming, |cases|)
  }

  predicate CanWork(w: World, i: nat) {
    i < |w.workers| && w.workers[i].status.Working? && w.workers[i].remaining != []
  }

  predicate CanOpen(w: World, i: nat) {
    i < |w.workers| && w.workers[i].status.Opening?
  }

  predicate CanGet(w: World) {
    w.consumer.Consuming? && w.queue != []
  }

  function SetWorker(w: World, i: nat, worker: Worker): World
    requires i < |w.workers|
  {
    w.(workers := w.workers[i := worker])
  }

  function StepGet(w: World): World
    requires CanGet(w)
  {
    var rest := w.(queue := w.queue[1..]);
    match w.queue[0]
    case Broke => rest.(consumer := Raised)
    case Scored(r) => rest.(got := w.got + [r], consumer := if |w.got| + 1 == w.total then Finished else Consuming)
  }

  function Step(w: World, e: Event): World {
    match e
    case Open(i) => if CanOpen(w, i) then SetWorker(w, i, w.workers[i].(status := Working)) else w
    case FailToOpen(i) => if CanOpen(w, i) then SetWorker(w, i, w.workers[i].(status := Silent)) else w
    case Abandon(i) => if CanWork(w, i) then SetWorker(w, i, w.workers[i].(status := Silent)) else w
    case Score(i, passed, score) =>
      if !CanWork(w, i) then w
      else
        var left := w.workers[i].remaining;
        SetWorker(w, i, Worker(Working, left[1..])).(queue := w.queue + [Scored(CaseResult(left[0], passed, score))])
    case Break(i) =>
      if !CanWork(w, i) then w
      else SetWorker(w, i, w.workers[i].(status := Errored)).(queue := w.queue + [Broke])
    case Get => if CanGet(w) then StepGet(w) else w
  }

  function Run(w: World, es: seq<Event>): World {
    if es == [] then w else Step(Run(w, es[..|es| - 1]), es[|es| - 1])
  }

  // ---------------------------------------------------------------- the invariant

  /** No case is lost or duplicated between workers, queue and consumer. */
  predicate Conserved(w: World, cases: seq<CaseId>, c: Option<CaseId>) {
    Tally(CasesOf(w.got), c) + Tally(CasesOf(ResultsIn(w.queue)), c) + Remaining(w.workers, c) == Tally(cases, c)
  }

  predicate ConsumerInv(w: World) {
    match w.consumer
    case Consuming => |w.got| < w.total
    case Finished => |w.got| == w.total
    case Raised => true
  }

  /** A worker that has not opened or has failed still has a case to answer for. */
  predicate WorkersInv(workers: seq<Worker>) {
    forall i :: 0 <= i < |workers| && !workers[i].status.Working? ==> workers[i].remaining != []
  }

  predicate SomeErrored(w: World) {
    exists i :: 0 <= i < |w.workers| && w.workers[i].status.Errored?
  }

  predicate ErrorInv(w: World) {
    SomeErrored(w) <==> Broke in w.queue || w.consumer.Raised?
  }

  ghost predicate Inv(w: World, cases: seq<CaseId>) {
    && (forall c :: Conserved(w, cases, c))
    && w.total == |cases| && ConsumerInv(w) && WorkersInv(w.workers) && ErrorInv(w)
  }

  lemma {:induction false} RemainingUpdate(workers: seq<Worker>, i: nat, worker: Worker, c: Option<CaseId>)
    requires i < |workers|
    ensures Remaining(workers[i := worker], c) + Tally(workers[i].remaining, c)
            == Remaining(workers, c) + Tally(worker.remaining, c)
  {
    hide Tally;
    var n := |workers| - 1;
    if i < n {
      RemainingUpdate(workers[..n], i, worker, c);
      assert workers[i := worker][..n] == workers[..n][i := worker];
    } else {
      assert workers[i := worker][..n] == workers[..n];
    }
  }

  lemma CasesAppend(a: seq<CaseResult>, b: seq<CaseResult>, c: Option<CaseId>)
    ensures Tally(CasesOf(a + b), c) == Tally(CasesOf(a), c) + Tally(CasesOf(b), c)
  {
    assert CasesOf(a + b) == CasesOf(a) + CasesOf(b);
    TallyAppend(CasesOf(a), CasesOf(b), c);
  }

  lemma {:induction false} QueueAppend(queue: seq<Message>, m: Message)
    ensures ResultsIn(queue + [m]) == ResultsIn(queue) + (if m.Scored? then [m.result] else [])
  {
    if queue != [] {
      assert (queue + [m])[1..] == queue[1..] + [m];
      QueueAppend(queue[1..], m);
    }
  }

  lemma StepConserves(w: World, e: Event, cases: seq<CaseId>, c: Option<CaseId>)
    requires Conserved(w, cases, c)
    ensures Conserved(Step(w, e), cases, c)
  {
    hide Tally, CasesOf;
    var w' := Step(w, e);
    if !e.Get? && e.worker < |w.workers| && w' != w {
      RemainingUpdate(w.workers, e.worker, w'.workers[e.worker], c);
    }
    match e
    case Score(i, passed, score) =>
      if CanWork(w, i) {
        ScoreConserves(w, i, CaseResult(w.workers[i].remaining[0], passed, score), c);
      }
    case Break(i) =>
      QueueAppend(w.queue, Broke);
      assert ResultsIn(w.queue) + [] == ResultsIn(w.queue);
    case Get =>
      if CanGet(w) && w.queue[0].Scored? {
        CasesAppend(w.got, [w.queue[0].result], c);
        CasesAppend([w.queue[0].result], ResultsIn(w.queue[1..]), c);
      }
    case _ =>
  }

  lemma ScoreConserves(w: World, i: nat, r: CaseResult, c: Option<CaseId>)
    requires CanWork(w, i) && r.caseId == w.workers[i].remaining[0]
    ensures Tally(CasesOf(ResultsIn(w.queue + [Scored(r)])), c) + Tally(w.workers[i].remaining[1..], c)
            == Tally(CasesOf(ResultsIn(w.queue)), c) + Tally(w.workers[i].remaining, c)
  {
    hide Tally;
    var left := w.workers[i].remaining;
    QueueAppend(w.queue, Scored(r));
    CasesAppend(ResultsIn(w.queue), [r], c);
    assert CasesOf([r]) == [left[0]] && left == [left[0]] + left[1..];
    TallyAppend([left[0]], left[1..], c);
  }

  lemma StepKeepsErrors(w: World, e: Event)
    requires ErrorInv(w)
    ensures ErrorInv(Step(w, e))
  {
    var w' := Step(w, e);
    if SomeErrored(w) {
      var k :| 0 <= k < |w.workers| && w.workers[k].status.Errored?;
      assert w'.workers[k].status.Errored?;
    } else if e.Break? && CanWork(w, e.worker) {
      assert w'.workers[e.worker].status.Errored? && w'.queue[|w.queue|] == Broke;
    }
    if e.Get? && CanGet(w) {
      assert w.queue == [w.queue[0]] + w.queue[1..];
    }
  }

  lemma StepKeepsInv(w: World, e: Event, cases: seq<CaseId>)
    requires Inv(w, cases)
    ensures Inv(Step(w, e), cases)
  {
    hide Conserved, ErrorInv;
    forall c ensures Conserved(Step(w, e), cases, c) {
      StepConserves(w, e, cases, c);
    }
    StepKeepsErrors(w, e);
  }

  lemma {:induction false} WorkersKeepCases(batches: seq<seq<CaseId>>, c: Option<CaseId>)
    ensures Remaining(WorkersFor(batches), c) == Together(batches, c)
  {
    if batches != [] {
      hide Tally;
      WorkersKeepCases(batches[..|batches| - 1], c);
      TallyOfNothing(c);
      var earlier := WorkersFor(batches[..|batches| - 1]);
      assert (earlier + [Worker(Opening, batches[|batches| - 1])])[..|earlier|] == earlier;
    }
  }

  lemma {:induction false} WorkersAreOpening(batches: seq<seq<CaseId>>)
    ensures forall i :: 0 <= i < |WorkersFor(batches)| ==>
              WorkersFor(batches)[i].status.Opening? && WorkersFor(batches)[i].remaining != []
  {
    if batches != [] {
      WorkersAreOpening(batches[..|batches| - 1]);
    }
  }

  lemma StartInv(cases: seq<CaseId>, concurrency: int)
    ensures Inv(Start(cases, concurrency), cases)
  {
    var step := Max(1, concurrency);
    var w := Start(cases, concurrency);
    forall c ensures Conserved(w, cases, c) {
      StridesPartition(cases, step, c);
      WorkersKeepCases(Deal(cases, step, step), c);
    }
    WorkersAreOpening(Deal(cases, step, step));
  }

  lemma {:induction false} RunKeepsInv(cases: seq<CaseId>, concurrency: int, es: seq<Event>)
    ensures Inv(Run(Start(cases, concurrency), es), cases)
  {
    if es == [] {
      StartInv(cases, concurrency);
    } else {
      RunKeepsInv(cases, concurrency, es[..|es| - 1]);
      StepKeepsInv(Run(Start(cases, concurrency), es[..|es| - 1]), es[|es| - 1], cases);
    }
  }

  // ---------------------------------------------------------------- main results

  lemma {:induction false} RemainingIsNone(workers: seq<Worker>, c: Option<CaseId>)
    requires Remaining(workers, None) == 0
    ensures Remaining(workers, c) == 0 && forall i :: 0 <= i < |workers| ==> workers[i].remaining == []
  {
    if workers != [] {
      RemainingIsNone(workers[..|workers| - 1], c);
    }
  }

  lemma {:induction false} EmptyWorkersRemainNone(workers: seq<Worker>)
    requires forall i :: 0 <= i < |workers| ==> workers[i].remaining == []
    ensures Remaining(workers, None) == 0
  {
    if workers != [] {
      EmptyWorkersRemainNone(workers[..|workers| - 1]);
    }
  }

  /** A consumer that finished has exactly one result for each case, in every interleaving. */
  lemma FinishedHasEveryCase(cases: seq<CaseId>, concurrency: int, es: seq<Event>)
    requires Run(Start(cases, concurrency), es).consumer.Finished?
    ensures multiset(CasesOf(Run(Start(cases, concurrency), es).got)) == multiset(cases)
    ensures Remaining(Run(Start(cases, concurrency), es).workers, None) == 0
  {
    RunKeepsInv(cases, concurrency, es);
    var w := Run(Start(cases, concurrency), es);
    assert Conserved(w, cases, None);
    forall c ensures Tally(CasesOf(w.got), c) == Tally(cases, c) {
      assert Conserved(w, cases, c);
      RemainingIsNone(w.workers, c);
      assert ResultsIn(w.queue) == [];
    }
    TallyDetermines(CasesOf(w.got), cases);
  }

  predicate NothingMoves(w: World) {
    !CanGet(w) && forall i :: 0 <= i < |w.workers| ==> !CanWork(w, i) && !CanOpen(w, i)
  }

  predicate SomeSilent(w: World) {
    exists i :: 0 <= i < |w.workers| && w.workers[i].status.Silent?
  }

  /** When it blocks: once nothing can move any more, the consumer still waits if and only if some
      worker ended without a word and no worker reported an exception. */
  lemma WaitsForeverExactlyWhen(cases: seq<CaseId>, concurrency: int, es: seq<Event>)
    requires NothingMoves(Run(Start(cases, concurrency), es))
    ensures var w := Run(Start(cases, concurrency), es);
            w.consumer.Consuming? <==> SomeSilent(w) && !SomeErrored(w)
  {
    RunKeepsInv(cases, concurrency, es);
    var w := Run(Start(cases, concurrency), es);
    if w.consumer.Consuming? {
      assert Conserved(w, cases, None) && w.queue == [];
      if forall i :: 0 <= i < |w.workers| ==> w.workers[i].remaining == [] {
        EmptyWorkersRemainNone(w.workers);
        assert false;
      } else {
        var i :| 0 <= i < |w.workers| && w.workers[i].remaining != [];
        assert !CanWork(w, i) && !CanOpen(w, i);
      }
    } else if w.consumer.Finished? {
      FinishedHasEveryCase(cases, concurrency, es);
      RemainingIsNone(w.workers, None);
    }
  }

  /** Such runs exist, both ways of falling silent, with one case and one worker. */
  lemma ConsumerCanWaitForever(c: CaseId)
    ensures var w := Step(Start([c], 1), FailToOpen(0)); w.consumer.Consuming? && NothingMoves(w)
    ensures var w := Step(Step(Start([c], 1), Open(0)), Abandon(0)); w.consumer.Consuming? && NothingMoves(w)
  {
    var batches := Deal([c], 1, 1);
    assert Stride([c], 1, 0) == [c] && Deal([c], 1, 0) == [];
    assert batches == Deal([c], 1, 0) + [Stride([c], 1, 0)] == [[c]];
    assert batches[..0] == [] && WorkersFor(batches[..0]) == [];
    assert WorkersFor(batches) == [Worker(Opening, [c])];
  }

  /** Every worker's session opens and whatever scoring raises is an `Exception`. */
  predicate NobodyFallsSilent(es: seq<Event>) {
    forall i :: 0 <= i < |es| ==> !es[i].FailToOpen? && !es[i].Abandon?
  }

  lemma {:induction false} NoneFellSilent(cases: seq<CaseId>, concurrency: int, es: seq<Event>)
    requires NobodyFallsSilent(es)
    ensures !SomeSilent(Run(Start(cases, concurrency), es))
  {
    if es == [] {
      WorkersAreOpening(Deal(cases, Max(1, concurrency), Max(1, concurrency)));
    } else {
      NoneFellSilent(cases, concurrency, es[..|es| - 1]);
    }
  }

  /** So if nobody falls silent, the consumer never waits for nothing: it is done, or something can
      still move. */
  lemma NeverBlocksForGood(cases: seq<CaseId>, concurrency: int, es: seq<Event>)
    requires NobodyFallsSilent(es)
    ensures var w := Run(Start(cases, concurrency), es); w.consumer.Consuming? ==> !NothingMoves(w)
  {
    NoneFellSilent(cases, concurrency, es);
    if NothingMoves(Run(Start(cases, concurrency), es)) {
      WaitsForeverExactlyWhen(cases, concurrency, es);
    }
  }

  function Weight(worker: Worker): nat {
    match worker.status
    case Opening => 2 * |worker.remaining| + 3
    case Working => 2 * |worker.remaining| + 2
    case _ => 0
  }

  function TotalWeight(workers: seq<Worker>): nat {
    if workers == [] then 0 else TotalWeight(workers[..|workers| - 1]) + Weight(workers[|workers| - 1])
  }

  lemma {:induction false} WeightUpdate(workers: seq<Worker>, i: nat, worker: Worker)
    requires i < |workers|
    ensures TotalWeight(workers[i := worker]) + Weight(workers[i]) == TotalWeight(workers) + Weight(worker)
  {
    var n := |workers| - 1;
    if i < n {
      WeightUpdate(workers[..n], i, worker);
      assert workers[i := worker][..n] == workers[..n][i := worker];
    } else {
      assert workers[i := worker][..n] == workers[..n];
    }
  }

  /** And it cannot go on moving for ever: each step that changes anything uses up some of a finite
      supply. */
  lemma StepsAreUsedUp(w: World, e: Event)
    ensures var w' := Step(w, e); w' != w ==> TotalWeight(w'.workers) + |w'.queue| < TotalWeight(w.workers) + |w.queue|
  {
    var w' := Step(w, e);
    if !e.Get? && e.worker < |w.workers| && (CanOpen(w, e.worker) || CanWork(w, e.worker)) {
      WeightUpdate(w.workers, e.worker, w'.workers[e.worker]);
      assert w'.workers == w.workers[e.worker := w'.workers[e.worker]];
    }
  }

  /** What a worker's turn does: it takes its next case and puts that case's result, or its failure,
      last into the queue. */
  lemma WorkersReportTheirNext(w: World, i: nat, passed: bool, score: real)
    requires i < |w.workers| && w.workers[i].status.Working? && w.workers[i].remaining != []
    ensures var left := w.workers[i].remaining;
            && Step(w, Score(i, passed, score))
               == w.(workers := w.workers[i := Worker(Working, left[1..])],
                     queue := w.queue + [Scored(CaseResult(left[0], passed, score))])
            && Step(w, Break(i)) == w.(workers := w.workers[i := Worker(Errored, left)], queue := w.queue + [Broke])
  {
  }

  /** What the consumer's turn does: it takes the first message; a failure ends it, and so does the last
      result it waits for. */
  lemma ConsumerTakesTheFirst(w: World)
    requires w.consumer.Consuming? && w.queue != []
    ensures var w' := Step(w, Get);
            && w'.queue == w.queue[1..] && w'.workers == w.workers && w'.total == w.total
            && match w.queue[0]
               case Broke => w'.consumer.Raised? && w'.got == w.got
               case Scored(r) =>
                 w'.got == w.got + [r] && w'.consumer == if |w'.got| == w.total then Finished else Consuming
  {
  }

  /** A session opens, a case is scored, or a message is taken. */
  predicate Benign(e: Event) {
    e.Open? || e.Score? || e.Get?
  }

  predicate AllBenign(es: seq<Event>) {
    forall i :: 0 <= i < |es| ==> Benign(es[i])
  }

  lemma SomethingCanStep(w: World)
    requires !NothingMoves(w)
    ensures exists e :: Benign(e) && Step(w, e) != w
  {
    if CanGet(w) {
      assert |Step(w, Get).queue| == |w.queue| - 1;
    } else {
      var i: nat :| i < |w.workers| && (CanWork(w, i) || CanOpen(w, i));
      if CanWork(w, i) {
        assert |Step(w, Score(i, true, 1.0)).queue| == |w.queue| + 1;
      } else {
        assert Step(w, Open(i)).workers[i].status.Working?;
      }
    }
  }

  predicate ErrorFree(w: World) {
    Broke !in w.queue && !w.consumer.Raised?
  }

  lemma BenignStaysErrorFree(w: World, e: Event)
    requires ErrorFree(w) && Benign(e)
    ensures ErrorFree(Step(w, e))
  {
  }

  lemma {:induction false} NoneErrs(cases: seq<CaseId>, concurrency: int, es: seq<Event>)
    requires AllBenign(es)
    ensures ErrorFree(Run(Start(cases, concurrency), es))
  {
    if es != [] {
      hide Step, ErrorFree, Start;
      NoneErrs(cases, concurrency, es[..|es| - 1]);
      BenignStaysErrorFree(Run(Start(cases, concurrency), es[..|es| - 1]), es[|es| - 1]);
    }
  }

  lemma {:induction false} RunConcat(w: World, a: seq<Event>, b: seq<Event>)
    ensures Run(w, a + b) == Run(Run(w, a), b)
  {
    if b == [] {
      assert a + b == a;
    } else {
      hide Step;
      RunConcat(w, a, b[..|b| - 1]);
      assert (a + b)[..|a + b| - 1] == a + b[..|b| - 1];
    }
  }

  lemma RunOne(w: World, e: Event)
    ensures Run(w, [e]) == Step(w, e)
  {
    assert [e][..0] == [];
  }

  /** Every run that has met no failure so far can be completed: some continuation without failures
      ends with a result for each case. */
  lemma {:induction false} EveryRunCanFinish(cases: seq<CaseId>, concurrency: int, es: seq<Event>)
    requires AllBenign(es)
    ensures exists more :: AllBenign(more) && Run(Run(Start(cases, concurrency), es), more).consumer.Finished?
    decreases TotalWeight(Run(Start(cases, concurrency), es).workers) + |Run(Start(cases, concurrency), es).queue|
  {
    var w := Run(Start(cases, concurrency), es);
    NoneErrs(cases, concurrency, es);
    if w.consumer.Finished? {
      var none: seq<Event> := [];
      assert Run(w, none) == w && AllBenign(none);
    } else {
      NeverBlocksForGood(cases, concurrency, es);
      SomethingCanStep(w);
      var e :| Benign(e) && Step(w, e) != w;
      hide Step;
      StepsAreUsedUp(w, e);
      RunConcat(Start(cases, concurrency), es, [e]);
      RunOne(w, e);
      EveryRunCanFinish(cases, concurrency, es + [e]);
      var more :| AllBenign(more) && Run(Run(Start(cases, concurrency), es + [e]), more).consumer.Finished?;
      RunConcat(w, [e], more);
      assert AllBenign([e] + more);
    }
  }

  // ---------------------------------------------------------------- writing the results

  datatype RunStatus = Running | Completed | Failed

  function Flatten(batches: seq<seq<CaseResult>>): seq<CaseResult> {
    if batches == [] then [] else Flatten(batches[..|batches| - 1]) + batches[|batches| - 1]
  }

  function PassedCount(results: seq<CaseResult>): nat {
    if results == [] then 0
    else PassedCount(results[..|results| - 1]) + (if results[|results| - 1].passed then 1 else 0)
  }

  function TotalScore(results: seq<CaseResult>): real {
    if results == [] then 0.0 else TotalScore(results[..|results| - 1]) + results[|results| - 1].score
  }

  function Average(results: seq<CaseResult>): real {
    if results == [] then 0.0 else TotalScore(results) / |results| as real
  }

  /** Full batches, but for a last one that may be smaller and is not empty. */
  predicate Batched(batches: seq<seq<CaseResult>>, size: nat) {
    && (forall i :: 0 <= i < |batches| - 1 ==> |batches[i]| == size)
    && (batches != [] ==> 1 <= |batches[|batches| - 1]| <= size)
  }

  /** What the consumer got from the queue: results, and if it raised, an exception at the end. */
  predicate IsDelivery(delivery: seq<Message>) {
    forall i :: 0 <= i < |delivery| - 1 ==> delivery[i].Scored?
  }

  function AsScored(results: seq<CaseResult>): (messages: seq<Message>)
    ensures |messages| == |results| && forall i :: 0 <= i < |results| ==> messages[i] == Scored(results[i])
  {
    if results == [] then [] else [Scored(results[0])] + AsScored(results[1..])
  }

  /** The messages the consumer of a run has taken. */
  function Taken(w: World): seq<Message> {
    if w.consumer.Raised? then AsScored(w.got) + [Broke] else AsScored(w.got)
  }

  lemma {:induction false} ResultsOfScored(results: seq<CaseResult>)
    ensures ResultsIn(AsScored(results)) == results
  {
    if results != [] {
      assert AsScored(results)[1..] == AsScored(results[1..]);
      ResultsOfScored(results[1..]);
    }
  }

  /** What `Execute` is given by a run of the queue: it ends in completion exactly when the consumer
      finished, and then what it writes has each case exactly once. */
  lemma TakenIsDelivery(cases: seq<CaseId>, concurrency: int, es: seq<Event>)
    ensures var w := Run(Start(cases, concurrency), es);
            && IsDelivery(Taken(w)) && ResultsIn(Taken(w)) == w.got
            && (Broke in Taken(w) <==> w.consumer.Raised?)
            && (w.consumer.Finished? ==> multiset(CasesOf(ResultsIn(Taken(w)))) == multiset(cases))
  {
    var w := Run(Start(cases, concurrency), es);
    ResultsOfScored(w.got);
    QueueAppend(AsScored(w.got), Broke);
    hide AsScored, ResultsIn, Run, Start;
    if w.consumer.Raised? {
      assert Taken(w)[|w.got|] == Broke;
    } else if w.consumer.Finished? {
      FinishedHasEveryCase(cases, concurrency, es);
    }
  }

  lemma {:induction false} TotalIsBounded(results: seq<CaseResult>)
    requires forall i :: 0 <= i < |results| ==> 0.0 <= results[i].score <= 1.0
    ensures 0.0 <= TotalScore(results) <= |results| as real
  {
    if results != [] {
      TotalIsBounded(results[..|results| - 1]);
    }
  }

  /** Scores between 0 and 1 average between 0 and 1. */
  lemma AverageIsBounded(results: seq<CaseResult>)
    requires forall i :: 0 <= i < |results| ==> 0.0 <= results[i].score <= 1.0
    ensures 0.0 <= Average(results) <= 1.0
  {
    TotalIsBounded(results);
    if results != [] {
      assert Average(results) * |results| as real == TotalScore(results);
    }
  }

  lemma {:induction false} TotalsAdd(a: seq<CaseResult>, b: seq<CaseResult>)
    ensures TotalScore(a + b) == TotalScore(a) + TotalScore(b) && PassedCount(a + b) == PassedCount(a) + PassedCount(b)
  {
    if b == [] {
      assert a + b == a;
    } else {
      TotalsAdd(a, b[..|b| - 1]);
      assert (a + b)[..|a + b| - 1] == a + b[..|b| - 1];
    }
  }

  /** A single result counts for itself. */
  lemma TotalsOfOne(r: CaseResult)
    ensures TotalScore([r]) == r.score && Average([r]) == r.score && PassedCount([r]) == (if r.passed then 1 else 0)
  {
    assert [r][..0] == [];
    assert TotalScore([]) == 0.0 && PassedCount([]) == 0;
  }

  /** The average is the mean: as often as there are results, it gives their total. */
  lemma AverageIsTheMean(results: seq<CaseResult>)
    ensures Average(results) * |results| as real == TotalScore(results)
    ensures results == [] ==> Average(results) == 0.0
  {
  }

  lemma TotalsWithout(s: seq<CaseResult>, i: nat)
    requires i < |s|
    ensures TotalScore(s) == TotalScore(s[..i] + s[i + 1..]) + s[i].score
    ensures PassedCount(s) == PassedCount(s[..i] + s[i + 1..]) + (if s[i].passed then 1 else 0)
  {
    hide TotalScore, PassedCount, Average;
    assert s == (s[..i] + [s[i]]) + s[i + 1..];
    TotalsAdd(s[..i] + [s[i]], s[i + 1..]);
    TotalsAdd(s[..i], [s[i]]);
    TotalsAdd(s[..i], s[i + 1..]);
    TotalsOfOne(s[i]);
  }

  lemma SameTotals(a: seq<CaseResult>, b: seq<CaseResult>)
    requires multiset(a) == multiset(b)
    ensures TotalScore(a) == TotalScore(b) && PassedCount(a) == PassedCount(b)
    decreases |a|
  {
    SameSize(a, b);
    if a == [] {
      assert b == [];
    } else {
      hide TotalScore, PassedCount;
      assert a[0] in multiset(a);
      var i :| 0 <= i < |b| && b[i] == a[0];
      SameRest(a, b, 0, i);
      TotalsWithout(a, 0);
      TotalsWithout(b, i);
      SameTotals(a[..0] + a[1..], b[..i] + b[i + 1..]);
    }
  }

  /** The order in which results come does not matter to the average or to the number passed. */
  lemma OrderDoesNotMatter(a: seq<CaseResult>, b: seq<CaseResult>)
    requires multiset(a) == multiset(b)
    ensures Average(a) == Average(b) && PassedCount(a) == PassedCount(b)
  {
    SameSize(a, b);
    SameTotals(a, b);
  }

  lemma TakenOut(s: seq<CaseResult>, i: nat)
    requires i < |s|
    ensures multiset(s[..i] + s[i + 1..]) == multiset(s) - multiset{s[i]}
  {
    assert s == s[..i] + [s[i]] + s[i + 1..];
  }

  lemma SameRest(a: seq<CaseResult>, b: seq<CaseResult>, i: nat, j: nat)
    requires i < |a| && j < |b| && multiset(a) == multiset(b) && a[i] == b[j]
    ensures multiset(a[..i] + a[i + 1..]) == multiset(b[..j] + b[j + 1..]) && |a[..i] + a[i + 1..]| < |a|
  {
    TakenOut(a, i);
    TakenOut(b, j);
  }

  lemma SameSize(a: seq<CaseResult>, b: seq<CaseResult>)
    requires multiset(a) == multiset(b)
    ensures |a| == |b|
  {
    assert |multiset(a)| == |a| && |multiset(b)| == |b|;
  }

  lemma OneMoreResult(results: seq<CaseResult>, r: CaseResult)
    ensures PassedCount(results + [r]) == PassedCount(results) + (if r.passed then 1 else 0)
  {
    assert (results + [r])[..|results|] == results;
  }

  class EvaluationRun {
    var status: RunStatus
    var passedCases: nat
    var averageScore: real
    var items: seq<seq<CaseResult>>

    constructor ()
      ensures status == Running && passedCases == 0 && averageScore == 0.0 && items == []
    {
      status, passedCases, averageScore, items := Running, 0, 0.0, [];
    }

    /** A whole run, from the cases it was given to the items it writes: when it completes, each case
        has exactly one item, in the order its result came. */
    method Evaluate(ghost cases: seq<CaseId>, ghost concurrency: int, ghost es: seq<Event>, delivery: seq<Message>,
                    batchSize: int, round: real -> real)
      requires items == [] && !Run(Start(cases, concurrency), es).consumer.Consuming?
      requires delivery == Taken(Run(Start(cases, concurrency), es))
      modifies this
      ensures old(status).Running? ==>
                (status.Completed? <==> Run(Start(cases, concurrency), es).consumer.Finished?)
      ensures old(status).Running? && status.Completed? ==>
                && multiset(CasesOf(Flatten(items))) == multiset(cases)
                && Flatten(items) == Run(Start(cases, concurrency), es).got
                && Batched(items, Max(1, batchSize)) && passedCases == PassedCount(Flatten(items))
    {
      TakenIsDelivery(cases, concurrency, es);
      hide Run, Start, Taken, ResultsIn, CasesOf, Flatten, PassedCount, Average;
      Execute(delivery, batchSize, round);
    }

    method MarkFailed()
      modifies `status
      ensures status == if old(status).Running? then Failed else old(status)
    {
      if status.Running? {
        status := Failed;
      }
    }

    method Flush(batch: seq<CaseResult>)
      modifies `items
      ensures items == old(items) + [batch] && Flatten(items) == Flatten(old(items)) + batch
    {
      items := items + [batch];
      assert items[..|items| - 1] == old(items);
    }

    /** Takes the stream to its end, writing full batches on the way. */
    method Consume(delivery: seq<Message>, batchSize: int)
      returns (results: seq<CaseResult>, passed: nat, unwritten: seq<CaseResult>, broke: bool)
      requires IsDelivery(delivery) && items == []
      modifies `items
      ensures broke <==> Broke in delivery
      ensures results == ResultsIn(delivery) && passed == PassedCount(results)
      ensures Flatten(items) + unwritten == results && |unwritten| < Max(1, batchSize)
      ensures forall k :: 0 <= k < |items| ==> |items[k]| == Max(1, batchSize)
    {
      results, passed, unwritten := [], 0, [];
      assert PassedCount([]) == 0 && ResultsIn(delivery[..0]) == [] && Flatten([]) == [];
      hide PassedCount, ResultsIn, Flatten;
      for i := 0 to |delivery|
        invariant results == ResultsIn(delivery[..i]) && forall k :: 0 <= k < i ==> delivery[k].Scored?
        invariant passed == PassedCount(results)
        invariant Flatten(items) + unwritten == results && |unwritten| < Max(1, batchSize)
        invariant forall k :: 0 <= k < |items| ==> |items[k]| == Max(1, batchSize)
      {
        assert delivery[..i + 1] == delivery[..i] + [delivery[i]];
        QueueAppend(delivery[..i], delivery[i]);
        if delivery[i].Broke? {
          assert delivery[..i + 1] == delivery;
          broke := true;
          return;
        }
        var result := delivery[i].result;
        OneMoreResult(results, result);
        results := results + [result];
        if result.passed {
          passed := passed + 1;
        }
        unwritten := unwritten + [result];
        if |unwritten| >= batchSize {
          Flush(unwritten);
          unwritten := [];
        }
      }
      assert delivery[..|delivery|] == delivery;
      broke := false;
    }

    /** The run from start to end; `round` is the rounding of the average. */
    method Execute(delivery: seq<Message>, batchSize: int, round: real -> real)
      requires IsDelivery(delivery) && items == []
      modifies this
      ensures old(status) != Running ==>
                status == old(status) && items == [] && passedCases == old(passedCases) && averageScore == old(averageScore)
      ensures old(status).Running? && Broke in delivery ==>
                && status == Failed && passedCases == old(passedCases) && averageScore == old(averageScore)
                && (forall i :: 0 <= i < |items| ==> |items[i]| == Max(1, batchSize))
                && Flatten(items) <= ResultsIn(delivery)
                && |ResultsIn(delivery)| - |Flatten(items)| < Max(1, batchSize)
      ensures old(status).Running? && Broke !in delivery ==>
                && status == Completed && passedCases == PassedCount(ResultsIn(delivery))
                && averageScore == round(Average(ResultsIn(delivery)))
                && Flatten(items) == ResultsIn(delivery) && Batched(items, Max(1, batchSize))
    {
      hide Average, PassedCount, ResultsIn, Flatten;
      if !status.Running? {
        return;
      }
      var results, passed, unwritten, broke := Consume(delivery, batchSize);
      if broke {
        MarkFailed();
        return;
      }
      if unwritten != [] {
        Flush(unwritten);
      }
      status, passedCases := Completed, passed;
      averageScore := round(Average(results));
    }
  }
}
