/** One atomic counter and the compare-and-swap loops running on it
    (`add_within` in crates/admatch-core/src/budget.rs), as a state machine over the atomic
    operations of any number of concurrent calls.

    All operations are relaxed, so a load may return any value the counter has held that is not
    older than one the same call has already seen; only a compare-and-swap that succeeds is
    sure to act on the newest. */
module CasCounter {
  import opened Model
  import opened Budgets

  type CallId = nat

  /** `Loaded(first, at, failures)`: the closure accepted the value at position `at` of the
      history; the call's first load returned position `first`, and since then `failures`
      attempts met a changed value. */
  datatype Progress = Invoked | Loaded(first: nat, at: nat, failures: nat)

  datatype Call = Call(amount: Micros, dailyBudget: Micros, progress: Progress)

  /** A decided call. */
  datatype Op = Op(amount: Micros, dailyBudget: Micros, accepted: bool)

  /** `history` is the counter's modification order, its last entry the stored value. `log` is
      bookkeeping for the proofs: the decided calls in the order of their deciding steps. */
  datatype Counter = Counter(history: seq<I64>, calls: map<CallId, Call>, log: seq<Op>)

  const FRESH := Counter([0], map[], [])

  function Value(c: Counter): I64
    requires c.history != []
  {
    c.history[|c.history| - 1]
  }

  /** The call got the answer `accepted` and let go of the counter. */
  function Decide(c: Counter, id: CallId, accepted: bool): Counter
    requires id in c.calls
  {
    c.(calls := c.calls - {id},
       log := c.log + [Op(c.calls[id].amount, c.calls[id].dailyBudget, accepted)])
  }

  /** The closure is run on the value at position `at`. */
  predicate Examine(c: Counter, d: Counter, id: CallId, first: nat, at: nat, failures: nat)
    requires id in c.calls && at < |c.history|
  {
    var call := c.calls[id];
    match NextTotal(c.history[at], call.amount, call.dailyBudget)
    case None => d == Decide(c, id, false)
    case Some(_) => d == c.(calls := c.calls[id := call.(progress := Loaded(first, at, failures))])
  }

  predicate Invoke(c: Counter, d: Counter, id: CallId, amount: Micros, dailyBudget: Micros) {
    && id !in c.calls && amount > 0
    && d == c.(calls := c.calls[id := Call(amount, dailyBudget, Invoked)])
  }

  /** The initial load. */
  predicate Load(c: Counter, d: Counter, id: CallId, at: nat) {
    && id in c.calls && c.calls[id].progress.Invoked? && at < |c.history|
    && Examine(c, d, id, at, at, 0)
  }

  /** The stored value is still the one read: the new total is stored and the call succeeds. */
  predicate CasSuccess(c: Counter, d: Counter, id: CallId) {
    && id in c.calls && c.calls[id].progress.Loaded?
    && c.calls[id].progress.at == |c.history| - 1
    && var next := NextTotal(c.history[c.calls[id].progress.at], c.calls[id].amount, c.calls[id].dailyBudget);
       next.Some? && d == Decide(c, id, true).(history := c.history + [next.value])
  }

  /** The weak exchange fails and returns a value at least as new as the one read: the same one
      when the failure is spurious, a newer one otherwise. The loop goes round. */
  predicate CasFailure(c: Counter, d: Counter, id: CallId, at: nat) {
    && id in c.calls && c.calls[id].progress.Loaded?
    && var p := c.calls[id].progress;
       && p.at <= at < |c.history|
       && Examine(c, d, id, p.first, at, if at > p.at then p.failures + 1 else p.failures)
  }

  datatype Event =
    | Enter(amount: Micros, dailyBudget: Micros)
    | Read(at: nat)
    | Swap
    | Retry(at: nat)

  predicate Step(c: Counter, d: Counter, id: CallId, e: Event) {
    match e
    case Enter(amount, dailyBudget) => Invoke(c, d, id, amount, dailyBudget)
    case Read(at) => Load(c, d, id, at)
    case Swap => CasSuccess(c, d, id)
    case Retry(at) => CasFailure(c, d, id, at)
  }

  /** What a call may meet: a load may return any value the counter has held, a failed exchange any
      that is not older than the one read, that one included; and an exchange that has read the
      newest value may succeed. */
  lemma AnyTurnIsPossible(c: Counter, id: CallId, at: nat)
    requires id in c.calls && at < |c.history|
    ensures c.calls[id].progress.Invoked? ==> exists d :: Step(c, d, id, Read(at))
    ensures c.calls[id].progress.Loaded? && at >= c.calls[id].progress.at ==> exists d :: Step(c, d, id, Retry(at))
    ensures c.calls[id].progress.Loaded? && c.calls[id].progress.at == |c.history| - 1 ==>
      NextTotal(c.history[|c.history| - 1], c.calls[id].amount, c.calls[id].dailyBudget).Some? ==>
        exists d :: Step(c, d, id, Swap)
  {
    var call := c.calls[id];
    match call.progress {
      case Invoked =>
        var d := Examined(c, id, at, at, 0);
        assert Step(c, d, id, Read(at));
      case Loaded(first, p, failures) =>
        if at >= p {
          var d := Examined(c, id, first, at, if at > p then failures + 1 else failures);
          assert Step(c, d, id, Retry(at));
        }
        var next := NextTotal(c.history[|c.history| - 1], call.amount, call.dailyBudget);
        if p == |c.history| - 1 && next.Some? {
          assert Step(c, Decide(c, id, true).(history := c.history + [next.value]), id, Swap);
        }
    }
  }

  /** The state `Examine` leads to. */
  function Examined(c: Counter, id: CallId, first: nat, at: nat, failures: nat): (d: Counter)
    requires id in c.calls && at < |c.history|
    ensures Examine(c, d, id, first, at, failures)
  {
    var call := c.calls[id];
    match NextTotal(c.history[at], call.amount, call.dailyBudget)
    case None => Decide(c, id, false)
    case Some(_) => c.(calls := c.calls[id := call.(progress := Loaded(first, at, failures))])
  }

  // ---------- what every step keeps ----------

  /** The calls executed one after the other, each atomically, from a stored value of 0: every
      answer is the one the call got, and the stored values are those of the history. */
  ghost predicate Sequential(log: seq<Op>, history: seq<I64>)
    decreases |log|
  {
    if log == [] then history == [0]
    else
      var op, before := log[|log| - 1], log[..|log| - 1];
      if op.accepted then
        && |history| >= 2
        && Sequential(before, history[..|history| - 1])
        && NextTotal(history[|history| - 2], op.amount, op.dailyBudget) == Some(history[|history| - 1])
      else
        && history != []
        && Sequential(before, history)
        && NextTotal(history[|history| - 1], op.amount, op.dailyBudget) == None
  }

  ghost predicate Rising(history: seq<I64>) {
    forall i, j :: 0 <= i < j < |history| ==> history[i] < history[j]
  }

  ghost predicate CallOk(c: Counter, call: Call) {
    && call.amount > 0
    && (call.progress.Loaded? ==>
      var p := call.progress;
      && p.first + p.failures <= p.at < |c.history|
      && c.history[p.at] + call.amount <= call.dailyBudget)
  }

  ghost predicate Inv(c: Counter) {
    && c.history != [] && c.history[0] == 0 && Rising(c.history)
    && (forall id :: id in c.calls ==> CallOk(c, c.calls[id]))
    && (forall i :: 0 <= i < |c.log| ==> c.log[i].amount > 0)
    && Sequential(c.log, c.history)
  }

  lemma ExamineKeepsInv(c: Counter, d: Counter, id: CallId, first: nat, at: nat, failures: nat)
    requires Inv(c) && id in c.calls && first + failures <= at < |c.history|
    requires Examine(c, d, id, first, at, failures)
    ensures Inv(d)
  {}

  lemma SwapKeepsInv(c: Counter, d: Counter, id: CallId)
    requires Inv(c) && CasSuccess(c, d, id)
    ensures Inv(d)
  {}

  lemma StepKeepsInv(c: Counter, d: Counter, id: CallId, e: Event)
    requires Inv(c) && Step(c, d, id, e)
    ensures Inv(d)
  {
    match e
    case Enter(_, _) =>
      forall other | other in d.calls ensures CallOk(d, d.calls[other]) {
        assert other != id ==> CallOk(c, c.calls[other]);
      }
    case Read(at) => ExamineKeepsInv(c, d, id, at, at, 0);
    case Retry(at) =>
      assert CallOk(c, c.calls[id]);
      var p := c.calls[id].progress;
      ExamineKeepsInv(c, d, id, p.first, at, if at > p.at then p.failures + 1 else p.failures);
    case Swap => SwapKeepsInv(c, d, id);
  }

  // ---------- whole runs ----------

  /** A run of the counter: any calls, any interleaving of their steps. */
  ghost predicate Run(states: seq<Counter>, ids: seq<CallId>, events: seq<Event>) {
    && states != [] && |ids| == |events| == |states| - 1
    && states[0] == FRESH
    && forall i :: 0 <= i < |events| ==> Step(states[i], states[i + 1], ids[i], events[i])
  }

  lemma {:induction false} RunKeepsInv(states: seq<Counter>, ids: seq<CallId>, events: seq<Event>, n: nat)
    requires Run(states, ids, events) && n < |states|
    ensures Inv(states[n])
  {
    if n > 0 {
      RunKeepsInv(states, ids, events, n - 1);
      StepKeepsInv(states[n - 1], states[n], ids[n - 1], events[n - 1]);
    }
  }

  /** The one step in which a call in progress gets its answer: success iff it swapped. */
  ghost predicate DecidingStep(c: Counter, d: Counter, id: CallId, e: Event) {
    && id in c.calls && id !in d.calls
    && d.log == c.log + [Op(c.calls[id].amount, c.calls[id].dailyBudget, e.Swap?)]
  }

  /** Linearisability: in every run the calls decided so far got the answers, and left the value,
      of the same calls executed atomically in the order of their deciding steps, each of which
      lies between the call's entry and its return. */
  lemma CasLoopIsLinearizable(states: seq<Counter>, ids: seq<CallId>, events: seq<Event>)
    requires Run(states, ids, events)
    ensures forall n :: 0 <= n < |states| ==> Sequential(states[n].log, states[n].history)
    ensures forall n :: 0 <= n < |events| ==>
      states[n + 1].log == states[n].log || DecidingStep(states[n], states[n + 1], ids[n], events[n])
  {
    forall n | 0 <= n < |states| ensures Sequential(states[n].log, states[n].history) {
      RunKeepsInv(states, ids, events, n);
    }
    forall n | 0 <= n < |events|
      ensures states[n + 1].log == states[n].log || DecidingStep(states[n], states[n + 1], ids[n], events[n])
    {
      assert Step(states[n], states[n + 1], ids[n], events[n]);
    }
  }

  function Accepted(log: seq<Op>): nat {
    if log == [] then 0
    else Accepted(log[..|log| - 1]) + if log[|log| - 1].accepted then 1 else 0
  }

  ghost predicate Uniform(log: seq<Op>, amount: Micros, dailyBudget: Micros) {
    forall i :: 0 <= i < |log| ==> log[i].amount == amount && log[i].dailyBudget == dailyBudget
  }

  lemma {:induction false} UniformSequentialFill(log: seq<Op>, history: seq<I64>, amount: Micros, dailyBudget: Micros)
    requires Sequential(log, history) && Uniform(log, amount, dailyBudget)
    requires amount > 0 && dailyBudget >= 0
    ensures Accepted(log) == Min(|log|, dailyBudget / amount)
    ensures history != [] && history[|history| - 1] == amount * Accepted(log)
  {
    if log != [] {
      var op, before := log[|log| - 1], log[..|log| - 1];
      var shorter := if op.accepted then history[..|history| - 1] else history;
      UniformSequentialFill(before, shorter, amount, dailyBudget);
      FillOnce(amount, dailyBudget, Accepted(before), shorter[|shorter| - 1]);
    }
  }

  /** One more atomic call on a counter holding `n` amounts. */
  lemma FillOnce(amount: Micros, dailyBudget: Micros, n: nat, spent: I64)
    requires amount > 0 && dailyBudget >= 0 && spent == amount * n
    ensures NextTotal(spent, amount, dailyBudget).Some? <==> n < dailyBudget / amount
    ensures NextTotal(spent, amount, dailyBudget).Some? ==>
      NextTotal(spent, amount, dailyBudget).value == amount * (n + 1)
  {
    NextTotalIsBudgetTest(spent, amount, dailyBudget);
    FitsOnceMore(amount, dailyBudget, n);
    assert amount * (n + 1) == amount * n + amount;
  }

  lemma FitsOnceMore(amount: nat, dailyBudget: nat, n: nat)
    requires amount > 0
    ensures amount * n + amount <= dailyBudget <==> n < dailyBudget / amount
  {
    var q, r := dailyBudget / amount, dailyBudget % amount;
    assert dailyBudget == amount * q + r;
    if n < q {
      assert amount * (n + 1) <= amount * q;
    } else {
      assert amount * q <= amount * n;
    }
  }

  /** Exact fill: when calls all spending the same amount against one budget have finished,
      however they interleaved, exactly `min(calls, budget / amount)` succeeded and the counter
      holds that many amounts: no update is lost, no slice of budget spent twice or left. */
  lemma ExactFill(states: seq<Counter>, ids: seq<CallId>, events: seq<Event>, amount: Micros, dailyBudget: Micros)
    requires Run(states, ids, events)
    requires amount > 0 && dailyBudget >= 0
    requires forall i :: 0 <= i < |events| && events[i].Enter? ==> events[i] == Enter(amount, dailyBudget)
    requires states[|states| - 1].calls == map[]
    ensures var last := states[|states| - 1];
            && last.history != []
            && Accepted(last.log) == Min(Entries(events), dailyBudget / amount)
            && Value(last) == amount * Accepted(last.log)
  {
    var n := |states| - 1;
    var last := states[n];
    RunKeepsInv(states, ids, events, n);
    EveryCallIsUniform(states, ids, events, amount, dailyBudget, n);
    assert events[..n] == events && |last.calls| == 0;
    UniformSequentialFill(last.log, last.history, amount, dailyBudget);
  }

  /** Calls made. */
  function Entries(events: seq<Event>): nat {
    if events == [] then 0
    else Entries(events[..|events| - 1]) + if events[|events| - 1].Enter? then 1 else 0
  }

  lemma {:induction false} EveryCallIsUniform(states: seq<Counter>, ids: seq<CallId>, events: seq<Event>,
                                              amount: Micros, dailyBudget: Micros, n: nat)
    requires Run(states, ids, events) && n < |states|
    requires forall i :: 0 <= i < |events| && events[i].Enter? ==> events[i] == Enter(amount, dailyBudget)
    ensures Uniform(states[n].log, amount, dailyBudget)
    ensures forall id :: id in states[n].calls ==>
      states[n].calls[id].amount == amount && states[n].calls[id].dailyBudget == dailyBudget
    ensures |states[n].log| + |states[n].calls| == Entries(events[..n])
  {
    if n > 0 {
      EveryCallIsUniform(states, ids, events, amount, dailyBudget, n - 1);
      var c, d, id := states[n - 1], states[n], ids[n - 1];
      assert Step(c, d, id, events[n - 1]);
      assert events[..n][..n - 1] == events[..n - 1];
      if events[n - 1].Enter? {
        assert d.calls.Keys == c.calls.Keys + {id};
      } else if id in d.calls {
        assert d.calls.Keys == c.calls.Keys;
      } else {
        assert d.calls.Keys == c.calls.Keys - {id};
      }
    }
  }

  // ---------- retries ----------

  /** What is left for a looping call: the room between the value it acts on and its budget. */
  function Room(c: Counter, id: CallId): int
    requires id in c.calls && c.calls[id].progress.Loaded? && c.calls[id].progress.at < |c.history|
  {
    c.calls[id].dailyBudget - c.calls[id].amount - c.history[c.calls[id].progress.at]
  }

  /** Every trip round the loop either is a spurious failure or strictly shrinks the room, which
      is never negative: apart from spurious failures the loop ends. */
  lemma RetryShrinksRoom(c: Counter, d: Counter, id: CallId, at: nat)
    requires Inv(c) && CasFailure(c, d, id, at) && id in d.calls
    ensures CallOk(c, c.calls[id]) && CallOk(d, d.calls[id])
    ensures 0 <= Room(d, id) <= Room(c, id)
    ensures at == c.calls[id].progress.at <==> Room(d, id) == Room(c, id)
  {}

  /** A call that met `failures` changed values did so because at least as many accepted spends are
      newer than the value it first read, and there are never more of them than its budget has room
      for. */
  lemma {:induction false} RetriesAreBounded(states: seq<Counter>, ids: seq<CallId>, events: seq<Event>, n: nat, id: CallId)
    requires Run(states, ids, events) && n < |states|
    requires id in states[n].calls && states[n].calls[id].progress.Loaded?
    ensures var c, p := states[n], states[n].calls[id].progress;
            && p.failures <= p.at - p.first
            && |c.history| - 1 == Accepted(c.log) && p.at <= Accepted(c.log)
            && p.failures <= c.calls[id].dailyBudget - c.calls[id].amount
  {
    var c, p := states[n], states[n].calls[id].progress;
    RunKeepsInv(states, ids, events, n);
    assert CallOk(c, c.calls[id]);
    AcceptedIsHistoryLength(c.log, c.history);
    RisingGrows(c.history, p.at);
  }

  /** The largest budget any accepted call carried, at least 0. */
  function LargestBudget(log: seq<Op>): int {
    if log == [] then 0
    else
      var op, before := log[|log| - 1], LargestBudget(log[..|log| - 1]);
      if op.accepted then Max(before, op.dailyBudget) else before
  }

  /** It is the largest: no accepted call carried more, and one carried it unless it is 0. */
  lemma {:induction false} LargestBudgetMeans(log: seq<Op>)
    ensures LargestBudget(log) >= 0
    ensures forall i :: 0 <= i < |log| && log[i].accepted ==> log[i].dailyBudget <= LargestBudget(log)
    ensures LargestBudget(log) == 0 || exists i :: 0 <= i < |log| && log[i].accepted && log[i].dailyBudget == LargestBudget(log)
  {
    if log != [] {
      var rest := log[..|log| - 1];
      LargestBudgetMeans(rest);
      assert log == rest + [log[|log| - 1]];
      if i :| 0 <= i < |rest| && rest[i].accepted && rest[i].dailyBudget == LargestBudget(rest) {
        assert log[i] == rest[i];
      }
    }
  }

  /** The stored value only ever rises, and never above the largest budget it was charged to. */
  lemma StoredWithinLargestBudget(states: seq<Counter>, ids: seq<CallId>, events: seq<Event>, n: nat)
    requires Run(states, ids, events) && n < |states|
    ensures var c := states[n];
            && c.history != [] && Rising(c.history)
            && 0 <= Value(c) <= LargestBudget(c.log)
  {
    RunKeepsInv(states, ids, events, n);
    SequentialWithinBudget(states[n].log, states[n].history);
  }

  lemma {:induction false} SequentialWithinBudget(log: seq<Op>, history: seq<I64>)
    requires Sequential(log, history) && forall i :: 0 <= i < |log| ==> log[i].amount > 0
    ensures history != [] && 0 <= history[|history| - 1] <= LargestBudget(log)
  {
    if log != [] {
      var op, before := log[|log| - 1], log[..|log| - 1];
      var shorter := if op.accepted then history[..|history| - 1] else history;
      SequentialWithinBudget(before, shorter);
      NextTotalIsBudgetTest(shorter[|shorter| - 1], op.amount, op.dailyBudget);
    }
  }

  lemma {:induction false} AcceptedIsHistoryLength(log: seq<Op>, history: seq<I64>)
    requires Sequential(log, history)
    ensures |history| == Accepted(log) + 1
  {
    if log != [] {
      var shorter := if log[|log| - 1].accepted then history[..|history| - 1] else history;
      AcceptedIsHistoryLength(log[..|log| - 1], shorter);
    }
  }

  lemma {:induction false} RisingGrows(history: seq<I64>, n: nat)
    requires Rising(history) && n < |history| && history[0] == 0
    ensures history[n] >= n
  {
    if n > 0 {
      RisingGrows(history, n - 1);
    }
  }
}
