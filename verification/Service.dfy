/** The running service: concurrent auctions, snapshot swaps, day changes and pruning over one
    set of counters (crates/admatch-server/src/state.rs, routes.rs, and the budget store under
    concurrent calls). One step is one atomic action. */
module Service {
  import opened Model
  import opened Normalization
  import opened Budgets
  import opened Matching
  import opened Specification
  import opened Guarantees
  import Cas = CasCounter

  type RequestId = nat

  /** What a published snapshot holds, as far as auctions can tell. */
  datatype Published = Published(campaigns: seq<Campaign>, cfg: EngineConfig)

  /** `Opening`: the snapshot is loaded, the clock not yet read. `Walking`: about to try position
      `at`. `Creating`: its counter was not there when looked up. `Paying`: holding the counter,
      inside the compare-and-swap loop. */
  datatype Stage = Opening | Walking | Creating | Paying | Finished(winner: Option<nat>)

  /** A request keeps the snapshot it loaded; `offers` is what its ranking computed from it. */
  datatype Request = Request(
    snapshot: Published,
    query: AuctionRequest,
    offers: seq<Offer>,
    day: Day,
    at: nat,
    stage: Stage)

  /** An accepted spend. `late`: its day could already have been pruned. */
  datatype Entry = Entry(payer: RequestId, key: Key, amount: Micros, dailyBudget: Micros, late: bool)

  /** `cutoff`: days before it may have been dropped. `ledger` is bookkeeping for the proofs. */
  datatype System = System(
    published: Option<Published>,
    today: Day,
    cutoff: Day,
    counters: map<Key, Cas.Counter>,
    requests: map<RequestId, Request>,
    ledger: seq<Entry>)

  function Initial(today: Day): System {
    System(None, today, 0, map[], map[], [])
  }

  function KeyAt(r: Request, i: nat): Key
    requires i < |r.offers|
  {
    Key(r.offers[i].campaign, r.day)
  }

  datatype Event =
    | Publish(next: Published)
    | Tick
    | PruneBegin
    | Evict(key: Key)
    | Begin(id: RequestId, query: AuctionRequest)
    | ReadClock(id: RequestId)
    | Invalid(id: RequestId)
    | Lookup(id: RequestId)
    | Create(id: RequestId)
    | Pay(id: RequestId, op: Cas.Event)
    | GiveUp(id: RequestId)

  function SetRequest(s: System, id: RequestId, r: Request): System {
    s.(requests := s.requests[id := r])
  }

  /** The pointer swap; a snapshot can only be built from campaigns without repeated ids. */
  ghost predicate PublishStep(s: System, t: System, next: Published) {
    UniqueIds(next.campaigns) && t == s.(published := Some(next))
  }

  predicate TickStep(s: System, t: System) {
    t == s.(today := s.today + 1)
  }

  /** The pruner reads the clock and starts dropping the days before yesterday ... */
  predicate PruneBeginStep(s: System, t: System) {
    t == s.(cutoff := Max(s.cutoff, PruneDay(s.today)))
  }

  /** ... one counter at a time, waiting for whoever holds it. */
  predicate EvictStep(s: System, t: System, key: Key) {
    && key in s.counters && key.day < s.cutoff && s.counters[key].calls == map[]
    && t == s.(counters := s.counters - {key})
  }

  /** An accepted query loads the snapshot and ranks its candidates. */
  predicate BeginStep(u: Tables, s: System, t: System, id: RequestId, query: AuctionRequest) {
    && id !in s.requests && s.published.Some? && Normalize(u, query.query).Success?
    && var p := s.published.value;
       t == SetRequest(s, id, Request(p, query, RankedOffers(u, p.campaigns, p.cfg, query), 0, 0, Opening))
  }

  predicate ReadClockStep(s: System, t: System, id: RequestId) {
    && id in s.requests && s.requests[id].stage.Opening?
    && t == SetRequest(s, id, s.requests[id].(day := s.today, stage := Walking))
  }

  predicate AtOffer(s: System, id: RequestId) {
    && id in s.requests && s.requests[id].stage.Walking?
    && s.requests[id].at < |s.requests[id].offers|
  }

  /** `InvalidAmount`: treated as unable to pay. */
  predicate InvalidStep(s: System, t: System, id: RequestId) {
    && AtOffer(s, id) && s.requests[id].offers[s.requests[id].at].price <= 0
    && t == SetRequest(s, id, s.requests[id].(at := s.requests[id].at + 1))
  }

  /** Takes hold of the counter of the current offer. */
  predicate Grab(s: System, t: System, id: RequestId, c: Cas.Counter)
    requires id in s.requests && s.requests[id].at < |s.requests[id].offers|
  {
    var r := s.requests[id];
    var o, key := r.offers[r.at], KeyAt(r, r.at);
    var d := c.(calls := c.calls[id := Cas.Call(o.price, o.dailyBudget, Cas.Invoked)]);
    && Cas.Step(c, d, id, Cas.Enter(o.price, o.dailyBudget))
    && t == SetRequest(s, id, r.(stage := Paying)).(counters := s.counters[key := d])
  }

  /** The fast path: a shared look-up. */
  predicate LookupStep(s: System, t: System, id: RequestId) {
    && AtOffer(s, id)
    && var r := s.requests[id];
       && r.offers[r.at].price > 0
       && if KeyAt(r, r.at) in s.counters then Grab(s, t, id, s.counters[KeyAt(r, r.at)])
          else t == SetRequest(s, id, r.(stage := Creating))
  }

  /** `entry().or_default()`: somebody may have created the counter, or had it pruned, since. */
  predicate CreateStep(s: System, t: System, id: RequestId) {
    && id in s.requests && s.requests[id].stage.Creating?
    && var r := s.requests[id];
       && r.at < |r.offers|
       && Grab(s, t, id, if KeyAt(r, r.at) in s.counters then s.counters[KeyAt(r, r.at)] else Cas.FRESH)
  }

  /** One atomic operation of the compare-and-swap loop. A success ends the walk, a refusal moves
      it on. */
  predicate PayStep(s: System, t: System, id: RequestId, op: Cas.Event) {
    && id in s.requests && s.requests[id].stage.Paying? && !op.Enter?
    && var r := s.requests[id];
       && r.at < |r.offers| && KeyAt(r, r.at) in s.counters && KeyAt(r, r.at) in t.counters
       && var key, o := KeyAt(r, r.at), r.offers[r.at];
          var d := t.counters[key];
          && Cas.Step(s.counters[key], d, id, op)
          && var held := s.(counters := s.counters[key := d]);
             t == if id in d.calls then held
                  else if op.Swap? then
                    SetRequest(held, id, r.(stage := Finished(Some(r.at))))
                      .(ledger := s.ledger + [Entry(id, key, o.price, o.dailyBudget, key.day < s.cutoff)])
                  else SetRequest(held, id, r.(at := r.at + 1, stage := Walking))
  }

  predicate GiveUpStep(s: System, t: System, id: RequestId) {
    && id in s.requests && s.requests[id].stage.Walking?
    && s.requests[id].at == |s.requests[id].offers|
    && t == SetRequest(s, id, s.requests[id].(stage := Finished(None)))
  }

  ghost predicate Step(u: Tables, s: System, t: System, e: Event) {
    match e
    case Publish(next) => PublishStep(s, t, next)
    case Tick => TickStep(s, t)
    case PruneBegin => PruneBeginStep(s, t)
    case Evict(key) => EvictStep(s, t, key)
    case Begin(id, query) => BeginStep(u, s, t, id, query)
    case ReadClock(id) => ReadClockStep(s, t, id)
    case Invalid(id) => InvalidStep(s, t, id)
    case Lookup(id) => LookupStep(s, t, id)
    case Create(id) => CreateStep(s, t, id)
    case Pay(id, op) => PayStep(s, t, id, op)
    case GiveUp(id) => GiveUpStep(s, t, id)
  }

  // ---------- what every step keeps ----------

  function StoredValue(c: Cas.Counter): I64 {
    if c.history == [] then 0 else Cas.Value(c)
  }

  /** The counters as the sequential auction sees them. */
  function View(counters: map<Key, Cas.Counter>): Counters {
    map k | k in counters :: StoredValue(counters[k])
  }

  /** All that was ever accepted for a key. */
  ghost function LedgerSum(ledger: seq<Entry>, k: Key): int {
    if ledger == [] then 0
    else LedgerSum(ledger[..|ledger| - 1], k)
         + if ledger[|ledger| - 1].key == k then ledger[|ledger| - 1].amount else 0
  }

  /** The largest budget an accepted spend of the key carried, at least 0. */
  ghost function LedgerCap(ledger: seq<Entry>, k: Key): int {
    if ledger == [] then 0
    else
      var e, cap := ledger[|ledger| - 1], LedgerCap(ledger[..|ledger| - 1], k);
      if e.key == k then Max(cap, e.dailyBudget) else cap
  }

  /** It is the largest: no accepted spend of the key carried more, and one carried it unless it is 0. */
  lemma {:induction false} LedgerCapMeans(ledger: seq<Entry>, k: Key)
    ensures LedgerCap(ledger, k) >= 0
    ensures forall i :: 0 <= i < |ledger| && ledger[i].key == k ==> ledger[i].dailyBudget <= LedgerCap(ledger, k)
    ensures LedgerCap(ledger, k) == 0
      || exists i :: 0 <= i < |ledger| && ledger[i].key == k && ledger[i].dailyBudget == LedgerCap(ledger, k)
  {
    if ledger != [] {
      var rest := ledger[..|ledger| - 1];
      LedgerCapMeans(rest, k);
      assert ledger == rest + [ledger[|ledger| - 1]];
      if i :| 0 <= i < |rest| && rest[i].key == k && rest[i].dailyBudget == LedgerCap(rest, k) {
        assert ledger[i] == rest[i];
      }
    }
  }

  ghost predicate OnTime(ledger: seq<Entry>, k: Key) {
    forall i :: 0 <= i < |ledger| && ledger[i].key == k ==> !ledger[i].late
  }

  ghost predicate CountersOk(s: System) {
    SoundCounters(s.counters) && CallsMatch(s)
  }

  ghost predicate SoundCounters(counters: map<Key, Cas.Counter>) {
    forall k :: k in counters ==> Cas.Inv(counters[k])
  }

  /** Every call on a counter is that of a paying request, for its current offer. */
  ghost predicate CallsMatch(s: System) {
    forall k, id :: k in s.counters && id in s.counters[k].calls ==>
      id in s.requests && CallOf(s.requests[id], k, s.counters[k].calls[id])
  }

  ghost predicate CallOf(r: Request, k: Key, call: Cas.Call) {
    && r.stage.Paying? && r.at < |r.offers| && KeyAt(r, r.at) == k
    && call.amount == r.offers[r.at].price && call.dailyBudget == r.offers[r.at].dailyBudget
  }

  /** A request holding a counter really holds it, so no pruner can take it away. */
  ghost predicate RequestOk(s: System, id: RequestId)
    requires id in s.requests
  {
    var r := s.requests[id];
    && r.at <= |r.offers|
    && (r.stage.Creating? || r.stage.Paying? ==> r.at < |r.offers| && r.offers[r.at].price > 0)
    && (r.stage.Opening? ==> r.at == 0)
    && (r.stage.Paying? ==> KeyAt(r, r.at) in s.counters && id in s.counters[KeyAt(r, r.at)].calls)
    && (r.stage.Finished? && r.stage.winner.Some? ==>
      r.stage.winner.value == r.at < |r.offers| && r.offers[r.at].price > 0)
    && (r.stage == Finished(None) ==> r.at == |r.offers|)
  }

  /** What a request was computed from. */
  ghost predicate Faithful(u: Tables, r: Request) {
    && UniqueIds(r.snapshot.campaigns) && Normalize(u, r.query.query).Success?
    && r.offers == RankedOffers(u, r.snapshot.campaigns, r.snapshot.cfg, r.query)
  }

  /** While its day cannot have been pruned, nobody a request has passed over can pay now. */
  ghost predicate SkipsHold(s: System, r: Request) {
    r.day >= s.cutoff ==>
      forall j :: 0 <= j < r.at && j < |r.offers| ==> !CanPay(View(s.counters), r.day, r.offers[j])
  }

  /** The counters that cannot have been pruned hold exactly what the ledger says. */
  ghost predicate LedgerHolds(s: System) {
    forall k: Key :: k.day >= s.cutoff ==> SpentOn(View(s.counters), k) == LedgerSum(s.ledger, k)
  }

  /** No counter ever holds more than was accepted for it, or more than the largest budget it was
      charged against, whether its day can be pruned or not. */
  ghost predicate Covered(s: System) {
    forall k: Key ::
      0 <= SpentOn(View(s.counters), k) <= Min(LedgerSum(s.ledger, k), LedgerCap(s.ledger, k))
  }

  ghost predicate PaidBy(e: Entry, r: Request) {
    && Won(r) && r.stage.winner.value < |r.offers|
    && var o := r.offers[r.stage.winner.value];
       e.key == Key(o.campaign, r.day) && e.amount == o.price && e.dailyBudget == o.dailyBudget
  }

  /** Accepted spends and ads shown correspond one to one. */
  ghost predicate Settled(s: System) {
    && (forall i :: 0 <= i < |s.ledger| ==> s.ledger[i].payer in s.requests && PaidBy(s.ledger[i], s.requests[s.ledger[i].payer]))
    && (forall i, j :: 0 <= i < j < |s.ledger| ==> s.ledger[i].payer != s.ledger[j].payer)
    && (forall id :: id in s.requests && Won(s.requests[id]) ==> Pays(s.ledger, id))
  }

  predicate Won(r: Request) {
    r.stage.Finished? && r.stage.winner.Some?
  }

  ghost predicate Pays(ledger: seq<Entry>, id: RequestId) {
    exists i :: 0 <= i < |ledger| && ledger[i].payer == id
  }

  ghost predicate ClockOk(s: System) {
    s.cutoff <= PruneDay(s.today)
  }

  ghost predicate RequestsOk(s: System) {
    forall id :: id in s.requests ==> RequestOk(s, id)
  }

  ghost predicate AllSkipsHold(s: System) {
    forall id :: id in s.requests ==> SkipsHold(s, s.requests[id])
  }

  /** Everything in flight was computed from a properly built snapshot. */
  ghost predicate AllFaithful(u: Tables, s: System) {
    && (s.published.Some? ==> UniqueIds(s.published.value.campaigns))
    && (forall id :: id in s.requests ==> Faithful(u, s.requests[id]))
  }

  ghost predicate Inv(u: Tables, s: System) {
    && ClockOk(s) && CountersOk(s) && RequestsOk(s) && AllSkipsHold(s) && AllFaithful(u, s)
    && LedgerHolds(s) && Covered(s) && Settled(s)
  }

  // ---------- steps and counters ----------

  /** Counters that cannot have been pruned never decrease. */
  ghost predicate NeverDecreases(s: System, t: System) {
    && s.cutoff <= t.cutoff
    && forall k: Key :: k.day >= t.cutoff ==> SpentOn(View(s.counters), k) <= SpentOn(View(t.counters), k)
  }

  /** What one operation of a payment does to its counter. */
  ghost predicate Effect(c: Cas.Counter, d: Cas.Counter, id: RequestId, op: Cas.Event) {
    && id in c.calls
    && (if id in d.calls then d.calls == c.calls[id := c.calls[id].(progress := d.calls[id].progress)]
        else d.calls == c.calls - {id})
    && (op.Swap? ==>
      && id !in d.calls && 0 <= StoredValue(c)
      && StoredValue(d) == StoredValue(c) + c.calls[id].amount <= c.calls[id].dailyBudget)
    && (!op.Swap? ==>
      && StoredValue(d) == StoredValue(c)
      && (id !in d.calls ==> StoredValue(c) + c.calls[id].amount > c.calls[id].dailyBudget))
  }

  lemma PaymentOp(c: Cas.Counter, d: Cas.Counter, id: RequestId, op: Cas.Event)
    requires Cas.Inv(c) && Cas.Step(c, d, id, op) && !op.Enter?
    ensures Effect(c, d, id, op)
  {}

  /** The counter a request holds, with the call it has on it. */
  lemma HeldCounter(s: System, id: RequestId)
    requires CallsMatch(s) && id in s.requests && RequestOk(s, id) && s.requests[id].stage.Paying?
    ensures var r := s.requests[id]; var k := KeyAt(r, r.at);
            k in s.counters && id in s.counters[k].calls && CallOf(r, k, s.counters[k].calls[id])
  {}

  lemma SpentOnView(counters: map<Key, Cas.Counter>, k: Key)
    ensures SpentOn(View(counters), k) == if k in counters then StoredValue(counters[k]) else 0
  {}

  /** The counter seen by `Grab`: the one there, or a fresh one. */
  function CounterFor(s: System, k: Key): Cas.Counter {
    if k in s.counters then s.counters[k] else Cas.FRESH
  }

  /** A request about to take hold of the counter of its current offer. */
  ghost predicate Grabs(s: System, t: System, id: RequestId) {
    && id in s.requests && (s.requests[id].stage.Walking? || s.requests[id].stage.Creating?)
    && s.requests[id].at < |s.requests[id].offers| && s.requests[id].offers[s.requests[id].at].price > 0
    && Grab(s, t, id, CounterFor(s, KeyAt(s.requests[id], s.requests[id].at)))
  }

  lemma GrabKeepsSound(s: System, t: System, id: RequestId)
    requires SoundCounters(s.counters) && Grabs(s, t, id)
    ensures SoundCounters(t.counters)
  {}

  lemma GrabKeepsCalls(s: System, t: System, id: RequestId)
    requires CallsMatch(s) && Grabs(s, t, id)
    ensures CallsMatch(t)
    ensures forall k :: SpentOn(View(t.counters), k) == SpentOn(View(s.counters), k)
  {}

  lemma GrabKeepsRequest(s: System, t: System, id: RequestId, x: RequestId)
    requires Grabs(s, t, id) && x in s.requests && RequestOk(s, x)
    ensures x in t.requests && RequestOk(t, x)
  {}

  lemma SoundUpdate(counters: map<Key, Cas.Counter>, key: Key, d: Cas.Counter)
    requires SoundCounters(counters) && Cas.Inv(d)
    ensures SoundCounters(counters[key := d])
  {}

  lemma PayKeepsSound(s: System, t: System, id: RequestId, op: Cas.Event)
    requires SoundCounters(s.counters) && PayStep(s, t, id, op)
    ensures SoundCounters(t.counters)
    ensures var k := KeyAt(s.requests[id], s.requests[id].at); Effect(s.counters[k], t.counters[k], id, op)
  {
    var key := KeyAt(s.requests[id], s.requests[id].at);
    var c, d := s.counters[key], t.counters[key];
    assert Cas.Inv(d) && Effect(c, d, id, op) by {
      PaymentKeepsInv(c, d, id, op);
    }
    SoundUpdate(s.counters, key, d);
    assert t.counters == s.counters[key := d];
  }

  lemma PaymentKeepsInv(c: Cas.Counter, d: Cas.Counter, id: RequestId, op: Cas.Event)
    requires Cas.Inv(c) && Cas.Step(c, d, id, op) && !op.Enter?
    ensures Cas.Inv(d) && Effect(c, d, id, op)
  {
    Cas.StepKeepsInv(c, d, id, op);
    PaymentOp(c, d, id, op);
  }

  lemma PayKeepsCalls(s: System, t: System, id: RequestId, op: Cas.Event)
    requires CallsMatch(s) && id in s.requests && RequestOk(s, id) && PayStep(s, t, id, op)
    requires var k := KeyAt(s.requests[id], s.requests[id].at); Effect(s.counters[k], t.counters[k], id, op)
    ensures CallsMatch(t)
    ensures var r := s.requests[id];
            forall k :: SpentOn(View(t.counters), k) == SpentOn(View(s.counters), k)
              + if op.Swap? && k == KeyAt(r, r.at) then r.offers[r.at].price else 0
  {
    var r := s.requests[id];
    var key := KeyAt(r, r.at);
    HeldCounter(s, id);
    forall k, x | k in t.counters && x in t.counters[k].calls
      ensures x in t.requests && CallOf(t.requests[x], k, t.counters[k].calls[x])
    {
      assert k in s.counters && x in s.counters[k].calls;
      assert CallOf(s.requests[x], k, s.counters[k].calls[x]);
    }
    forall k ensures SpentOn(View(t.counters), k) == SpentOn(View(s.counters), k)
      + if op.Swap? && k == key then r.offers[r.at].price else 0
    {
      SpentOnView(s.counters, k);
      SpentOnView(t.counters, k);
    }
  }

  lemma PayKeepsRequest(s: System, t: System, id: RequestId, op: Cas.Event, x: RequestId)
    requires id in s.requests && RequestOk(s, id) && PayStep(s, t, id, op)
    requires var k := KeyAt(s.requests[id], s.requests[id].at); Effect(s.counters[k], t.counters[k], id, op)
    requires x in s.requests && RequestOk(s, x)
    ensures x in t.requests && RequestOk(t, x)
  {}

  lemma GrabIsSafe(s: System, t: System, id: RequestId)
    requires CountersOk(s) && RequestsOk(s) && Grabs(s, t, id)
    ensures CountersOk(t) && RequestsOk(t) && NeverDecreases(s, t)
  {
    GrabKeepsSound(s, t, id);
    GrabKeepsCalls(s, t, id);
    forall x | x in t.requests ensures RequestOk(t, x) {
      assert RequestOk(s, x);
      GrabKeepsRequest(s, t, id, x);
    }
  }

  lemma PayIsSafe(s: System, t: System, id: RequestId, op: Cas.Event)
    requires CountersOk(s) && RequestsOk(s) && PayStep(s, t, id, op)
    ensures CountersOk(t) && RequestsOk(t) && NeverDecreases(s, t)
  {
    assert RequestOk(s, id);
    PayKeepsSound(s, t, id, op);
    PayKeepsCalls(s, t, id, op);
    forall x | x in t.requests ensures RequestOk(t, x) {
      assert RequestOk(s, x);
      PayKeepsRequest(s, t, id, op, x);
    }
  }

  lemma LookupIsSafe(s: System, t: System, id: RequestId)
    requires CountersOk(s) && RequestsOk(s) && LookupStep(s, t, id)
    ensures CountersOk(t) && RequestsOk(t) && NeverDecreases(s, t)
  {
    assert RequestOk(s, id);
    if KeyAt(s.requests[id], s.requests[id].at) in s.counters {
      GrabIsSafe(s, t, id);
    } else {
      QuietStep(s, t, id);
    }
  }

  lemma CreateIsSafe(s: System, t: System, id: RequestId)
    requires CountersOk(s) && RequestsOk(s) && CreateStep(s, t, id)
    ensures CountersOk(t) && RequestsOk(t) && NeverDecreases(s, t)
  {
    assert RequestOk(s, id);
    GrabIsSafe(s, t, id);
  }

  lemma OwnStepIsSafe(u: Tables, s: System, t: System, e: Event)
    requires CountersOk(s) && RequestsOk(s) && Step(u, s, t, e)
    requires e.Begin? || e.ReadClock? || e.Invalid? || e.GiveUp?
    ensures CountersOk(t) && RequestsOk(t) && NeverDecreases(s, t)
  {
    match e
    case Begin(id, _) => QuietStep(s, t, id);
    case ReadClock(id) => assert RequestOk(s, id); QuietStep(s, t, id);
    case Invalid(id) => assert RequestOk(s, id); QuietStep(s, t, id);
    case GiveUp(id) => assert RequestOk(s, id); QuietStep(s, t, id);
  }

  lemma StepKeepsCounters(u: Tables, s: System, t: System, e: Event)
    requires CountersOk(s) && RequestsOk(s) && Step(u, s, t, e)
    ensures CountersOk(t) && RequestsOk(t) && NeverDecreases(s, t)
  {
    match e
    case Pay(id, op) => PayIsSafe(s, t, id, op);
    case Create(id) => CreateIsSafe(s, t, id);
    case Lookup(id) => LookupIsSafe(s, t, id);
    case Evict(key) => EvictKeepsCounters(s, t, key);
    case Begin(_, _) => OwnStepIsSafe(u, s, t, e);
    case ReadClock(_) => OwnStepIsSafe(u, s, t, e);
    case Invalid(_) => OwnStepIsSafe(u, s, t, e);
    case GiveUp(_) => OwnStepIsSafe(u, s, t, e);
    case Publish(_) => QuietStep(s, t, 0);
    case Tick => QuietStep(s, t, 0);
    case PruneBegin => QuietStep(s, t, 0);
  }

  /** A step that touches no counter and only a request that holds none. */
  lemma QuietStep(s: System, t: System, id: RequestId)
    requires CountersOk(s) && RequestsOk(s)
    requires t.counters == s.counters && s.cutoff <= t.cutoff
    requires t.requests == s.requests
      || (id in t.requests && t.requests == s.requests[id := t.requests[id]] && !t.requests[id].stage.Paying?
          && RequestOk(t, id) && (id in s.requests ==> !s.requests[id].stage.Paying?))
    ensures CountersOk(t) && RequestsOk(t) && NeverDecreases(s, t)
  {
    forall x | x in t.requests ensures RequestOk(t, x) {
      assert x in s.requests ==> RequestOk(s, x);
    }
  }

  lemma EvictKeepsCounters(s: System, t: System, key: Key)
    requires CountersOk(s) && RequestsOk(s) && EvictStep(s, t, key)
    ensures CountersOk(t) && RequestsOk(t) && NeverDecreases(s, t)
  {
    forall x | x in t.requests ensures RequestOk(t, x) {
      assert RequestOk(s, x);
    }
    forall k: Key | k.day >= t.cutoff ensures SpentOn(View(s.counters), k) <= SpentOn(View(t.counters), k) {
      SpentOnView(s.counters, k);
      SpentOnView(t.counters, k);
    }
  }

  // ---------- steps and skips ----------

  lemma SkipsLast(s: System, t: System, r: Request)
    requires NeverDecreases(s, t) && SkipsHold(s, r)
    ensures SkipsHold(t, r)
  {}

  /** A refusal is final: the position passed over cannot pay in the state after either. */
  lemma RefusalHolds(s: System, t: System, id: RequestId, op: Cas.Event)
    requires CountersOk(s) && id in s.requests && RequestOk(s, id) && PayStep(s, t, id, op)
    requires t.requests[id].stage.Walking?
    ensures var r := s.requests[id]; !CanPay(View(t.counters), r.day, r.offers[r.at])
  {
    var r := s.requests[id];
    var key := KeyAt(r, r.at);
    HeldCounter(s, id);
    PaymentOp(s.counters[key], t.counters[key], id, op);
    SpentOnView(t.counters, key);
  }

  // ---------- steps and the ledger ----------

  /** The step that accepts a spend. */
  predicate Accepts(e: Event) {
    e.Pay? && e.op.Swap?
  }

  lemma OnlyAcceptsChangesLedger(u: Tables, s: System, t: System, e: Event)
    requires CountersOk(s) && RequestsOk(s) && Step(u, s, t, e) && !Accepts(e)
    ensures t.ledger == s.ledger
    ensures forall k: Key ::
      SpentOn(View(t.counters), k) == if e == Evict(k) then 0 else SpentOn(View(s.counters), k)
  {
    match e
    case Pay(id, op) =>
      assert RequestOk(s, id);
      PayKeepsSound(s, t, id, op);
      PayKeepsCalls(s, t, id, op);
    case Create(id) =>
      assert RequestOk(s, id);
      GrabKeepsCalls(s, t, id);
    case Lookup(id) =>
      assert RequestOk(s, id);
      if KeyAt(s.requests[id], s.requests[id].at) in s.counters {
        GrabKeepsCalls(s, t, id);
      }
    case Evict(key) => EvictTakesOne(s, t, key);
    case _ =>
  }

  lemma EvictTakesOne(s: System, t: System, key: Key)
    requires EvictStep(s, t, key)
    ensures forall k: Key ::
      SpentOn(View(t.counters), k) == if k == key then 0 else SpentOn(View(s.counters), k)
  {
    forall k: Key ensures SpentOn(View(t.counters), k) == if k == key then 0 else SpentOn(View(s.counters), k) {
      SpentOnView(s.counters, k);
      SpentOnView(t.counters, k);
    }
  }

  lemma LedgerGrows(ledger: seq<Entry>, e: Entry, k: Key)
    ensures LedgerSum(ledger + [e], k) == LedgerSum(ledger, k) + if e.key == k then e.amount else 0
    ensures LedgerCap(ledger + [e], k) == if e.key == k then Max(LedgerCap(ledger, k), e.dailyBudget) else LedgerCap(ledger, k)
  {
    assert (ledger + [e])[..|ledger|] == ledger;
  }

  /** The accepted spend: what it was, and that it fitted. */
  lemma AcceptedSpend(s: System, t: System, id: RequestId)
    requires CountersOk(s) && RequestsOk(s) && PayStep(s, t, id, Cas.Swap)
    ensures var r := s.requests[id]; var o, key := r.offers[r.at], KeyAt(r, r.at);
            && t.ledger == s.ledger + [Entry(id, key, o.price, o.dailyBudget, key.day < s.cutoff)]
            && t.requests == s.requests[id := r.(stage := Finished(Some(r.at)))]
            && t.cutoff == s.cutoff
            && o.price > 0 && SpentOn(View(s.counters), key) >= 0
            && SpentOn(View(s.counters), key) + o.price <= o.dailyBudget
            && (forall k :: SpentOn(View(t.counters), k) == SpentOn(View(s.counters), k) + if k == key then o.price else 0)
  {
    var r := s.requests[id];
    var key := KeyAt(r, r.at);
    assert RequestOk(s, id);
    HeldCounter(s, id);
    PayKeepsSound(s, t, id, Cas.Swap);
    PayKeepsCalls(s, t, id, Cas.Swap);
    SpentOnView(s.counters, key);
  }

  lemma AcceptKeepsLedger(s: System, t: System, id: RequestId)
    requires CountersOk(s) && RequestsOk(s) && PayStep(s, t, id, Cas.Swap) && LedgerHolds(s) && Covered(s)
    ensures LedgerHolds(t) && Covered(t)
  {
    AcceptedSpend(s, t, id);
    AppendToLedger(s, t, t.ledger[|s.ledger|]);
  }

  lemma AppendToLedger(s: System, t: System, entry: Entry)
    requires LedgerHolds(s) && Covered(s)
    requires t.ledger == s.ledger + [entry] && t.cutoff == s.cutoff && entry.amount > 0
    requires SpentOn(View(s.counters), entry.key) + entry.amount <= entry.dailyBudget
    requires forall k :: SpentOn(View(t.counters), k) ==
                         SpentOn(View(s.counters), k) + if k == entry.key then entry.amount else 0
    ensures LedgerHolds(t) && Covered(t)
  {
    forall k: Key
      ensures k.day >= t.cutoff ==> SpentOn(View(t.counters), k) == LedgerSum(t.ledger, k)
      ensures 0 <= SpentOn(View(t.counters), k) <= Min(LedgerSum(t.ledger, k), LedgerCap(t.ledger, k))
    {
      LedgerGrows(s.ledger, entry, k);
    }
  }

  lemma StepKeepsLedger(u: Tables, s: System, t: System, e: Event)
    requires CountersOk(s) && RequestsOk(s) && Step(u, s, t, e) && LedgerHolds(s) && Covered(s)
    requires s.cutoff <= t.cutoff
    ensures LedgerHolds(t) && Covered(t)
  {
    if Accepts(e) {
      AcceptKeepsLedger(s, t, e.id);
    } else {
      OnlyAcceptsChangesLedger(u, s, t, e);
    }
  }

  /** A counter and the total accepted for it grow by the same amount, except that dropping the
      counter forgets what it held. */
  ghost predicate Moves(s: System, t: System, e: Event, k: Key) {
    var held, total := SpentOn(View(s.counters), k), LedgerSum(s.ledger, k);
    && (if e == Evict(k) then SpentOn(View(t.counters), k) == 0 && LedgerSum(t.ledger, k) == total
        else SpentOn(View(t.counters), k) - held == LedgerSum(t.ledger, k) - total)
    && (LedgerSum(t.ledger, k) == total ==> LedgerCap(t.ledger, k) == LedgerCap(s.ledger, k))
  }

  lemma StepMovesMoney(u: Tables, s: System, t: System, e: Event, k: Key)
    requires CountersOk(s) && RequestsOk(s) && Step(u, s, t, e)
    ensures Moves(s, t, e, k)
  {
    if Accepts(e) {
      AcceptedSpend(s, t, e.id);
      LedgerGrows(s.ledger, t.ledger[|s.ledger|], k);
    } else {
      OnlyAcceptsChangesLedger(u, s, t, e);
    }
  }

  lemma SettleOne(s: System, t: System, id: RequestId, entry: Entry, r: Request)
    requires Settled(s) && id in s.requests && !Won(s.requests[id])
    requires t.ledger == s.ledger + [entry] && t.requests == s.requests[id := r]
    requires entry.payer == id && PaidBy(entry, r)
    ensures Settled(t)
  {
    forall i | 0 <= i < |s.ledger| ensures s.ledger[i].payer != id {
      assert PaidBy(s.ledger[i], s.requests[s.ledger[i].payer]);
    }
    forall x | x in t.requests && Won(t.requests[x]) ensures Pays(t.ledger, x) {
      if x == id {
        assert t.ledger[|s.ledger|].payer == id;
      } else {
        assert Pays(s.ledger, x);
        var i :| 0 <= i < |s.ledger| && s.ledger[i].payer == x;
        assert t.ledger[i] == s.ledger[i];
      }
    }
  }

  lemma AcceptKeepsSettled(s: System, t: System, id: RequestId)
    requires CountersOk(s) && RequestsOk(s) && PayStep(s, t, id, Cas.Swap) && Settled(s)
    ensures Settled(t)
  {
    AcceptedSpend(s, t, id);
    SettleOne(s, t, id, t.ledger[|s.ledger|], t.requests[id]);
  }

  lemma OtherStepKeepsSettled(u: Tables, s: System, t: System, e: Event)
    requires CountersOk(s) && RequestsOk(s) && Step(u, s, t, e) && !Accepts(e) && Settled(s)
    ensures Settled(t)
  {
    OnlyAcceptsChangesLedger(u, s, t, e);
    forall i | 0 <= i < |t.ledger|
      ensures t.ledger[i].payer in t.requests && PaidBy(t.ledger[i], t.requests[t.ledger[i].payer])
    {
      assert PaidBy(s.ledger[i], s.requests[s.ledger[i].payer]);
      StepAdvances(u, s, t, e, s.ledger[i].payer);
    }
    forall x | x in t.requests && Won(t.requests[x]) ensures Pays(t.ledger, x) {
      OnlyBeginAdds(u, s, t, e, x);
      StepAdvances(u, s, t, e, x);
      assert Won(s.requests[x]) && Pays(s.ledger, x);
    }
  }

  lemma StepKeepsSettled(u: Tables, s: System, t: System, e: Event)
    requires CountersOk(s) && RequestsOk(s) && Step(u, s, t, e) && Settled(s)
    ensures Settled(t)
  {
    if Accepts(e) {
      AcceptKeepsSettled(s, t, e.id);
    } else {
      OtherStepKeepsSettled(u, s, t, e);
    }
  }

  // ---------- how one request moves ----------

  /** A request keeps the snapshot, the query and the offers it began with; it reads the clock
      once; when finished it stays as it is; it finishes with a winner only by a success and
      without one only by giving up. */
  ghost predicate Advances(r: Request, n: Request, e: Event, id: RequestId) {
    && n.snapshot == r.snapshot && n.query == r.query && n.offers == r.offers
    && (!r.stage.Opening? ==> n.day == r.day && !n.stage.Opening?)
    && (r.stage.Opening? && !n.stage.Opening? ==> e == ReadClock(id))
    && (n.at == r.at || (n.at == r.at + 1 && n.day == r.day && n.stage.Walking? && (e == Invalid(id) || (e.Pay? && e.id == id))))
    && (r.stage.Finished? ==> n == r)
    && (!r.stage.Finished? && Won(n) ==> e == Pay(id, Cas.Swap) && n == r.(stage := n.stage))
    && (!r.stage.Finished? && n.stage == Finished(None) ==> e == GiveUp(id) && n == r.(stage := n.stage))
  }

  lemma PayAdvances(s: System, t: System, id: RequestId, op: Cas.Event, x: RequestId)
    requires PayStep(s, t, id, op) && x in s.requests
    ensures x in t.requests && Advances(s.requests[x], t.requests[x], Pay(id, op), x)
    ensures t.requests.Keys == s.requests.Keys
  {}

  lemma GrabAdvances(s: System, t: System, id: RequestId, c: Cas.Counter, e: Event, x: RequestId)
    requires id in s.requests && s.requests[id].at < |s.requests[id].offers|
    requires s.requests[id].stage.Walking? || s.requests[id].stage.Creating?
    requires Grab(s, t, id, c) && x in s.requests
    ensures x in t.requests && Advances(s.requests[x], t.requests[x], e, x)
    ensures t.requests.Keys == s.requests.Keys
  {}

  lemma StepAdvances(u: Tables, s: System, t: System, e: Event, x: RequestId)
    requires Step(u, s, t, e) && x in s.requests
    ensures x in t.requests && Advances(s.requests[x], t.requests[x], e, x)
  {
    match e
    case Pay(id, op) => PayAdvances(s, t, id, op, x);
    case Create(id) => GrabAdvances(s, t, id, CounterFor(s, KeyAt(s.requests[id], s.requests[id].at)), e, x);
    case Lookup(id) =>
      if KeyAt(s.requests[id], s.requests[id].at) in s.counters {
        GrabAdvances(s, t, id, CounterFor(s, KeyAt(s.requests[id], s.requests[id].at)), e, x);
      }
    case _ =>
  }

  lemma OnlyBeginAdds(u: Tables, s: System, t: System, e: Event, x: RequestId)
    requires Step(u, s, t, e) && x in t.requests
    ensures x in s.requests || (e.Begin? && BeginStep(u, s, t, x, e.query))
  {}

  /** The position a request has just passed over cannot pay. */
  lemma PassedCannotPay(u: Tables, s: System, t: System, e: Event, x: RequestId)
    requires CountersOk(s) && RequestsOk(s) && Step(u, s, t, e) && x in s.requests && x in t.requests
    requires Advances(s.requests[x], t.requests[x], e, x) && t.requests[x].at != s.requests[x].at
    ensures var r := s.requests[x];
            r.at < |r.offers| && !CanPay(View(t.counters), r.day, r.offers[r.at])
  {
    assert RequestOk(s, x);
    if e.Pay? {
      RefusalHolds(s, t, x, e.op);
    }
  }

  lemma StepKeepsSkips(u: Tables, s: System, t: System, e: Event, x: RequestId)
    requires CountersOk(s) && RequestsOk(s) && Step(u, s, t, e) && NeverDecreases(s, t)
    requires AllSkipsHold(s) && x in s.requests
    ensures x in t.requests && SkipsHold(t, t.requests[x])
  {
    var r := s.requests[x];
    StepAdvances(u, s, t, e, x);
    SkipsLast(s, t, r);
    if t.requests[x].at != r.at {
      PassedCannotPay(u, s, t, e, x);
    }
    OpeningHasPassedNobody(s, x);
    SkipsCarry(t, r, t.requests[x], e, x);
  }

  lemma OpeningHasPassedNobody(s: System, x: RequestId)
    requires RequestsOk(s) && x in s.requests
    ensures s.requests[x].stage.Opening? ==> s.requests[x].at == 0
  {}

  lemma SkipsCarry(t: System, r: Request, n: Request, e: Event, x: RequestId)
    requires Advances(r, n, e, x) && SkipsHold(t, r)
    requires r.stage.Opening? ==> r.at == 0
    requires n.at != r.at ==> r.at < |r.offers| && !CanPay(View(t.counters), r.day, r.offers[r.at])
    ensures SkipsHold(t, n)
  {}

  lemma FaithfulStays(u: Tables, r: Request, n: Request, e: Event, id: RequestId)
    requires Faithful(u, r) && Advances(r, n, e, id)
    ensures Faithful(u, n)
  {}

  lemma BeginIsFaithful(u: Tables, s: System, t: System, id: RequestId, query: AuctionRequest)
    requires BeginStep(u, s, t, id, query) && s.published.Some? && UniqueIds(s.published.value.campaigns)
    ensures Faithful(u, t.requests[id])
  {}

  lemma StepKeepsFaithful(u: Tables, s: System, t: System, e: Event)
    requires Step(u, s, t, e) && AllFaithful(u, s)
    ensures AllFaithful(u, t)
  {
    forall id | id in t.requests ensures Faithful(u, t.requests[id]) {
      OnlyBeginAdds(u, s, t, e, id);
      if id in s.requests {
        StepAdvances(u, s, t, e, id);
        FaithfulStays(u, s.requests[id], t.requests[id], e, id);
      } else {
        BeginIsFaithful(u, s, t, id, e.query);
      }
    }
    PublishedStaysUnique(u, s, t, e);
  }

  lemma PublishedStaysUnique(u: Tables, s: System, t: System, e: Event)
    requires Step(u, s, t, e) && (s.published.Some? ==> UniqueIds(s.published.value.campaigns))
    ensures t.published.Some? ==> UniqueIds(t.published.value.campaigns)
  {
    match e
    case Publish(_) =>
    case Pay(_, _) =>
    case _ => assert t.published == s.published;
  }

  lemma StepKeepsClock(u: Tables, s: System, t: System, e: Event)
    requires ClockOk(s) && Step(u, s, t, e)
    ensures ClockOk(t)
  {}

  lemma StepKeepsAllSkips(u: Tables, s: System, t: System, e: Event)
    requires CountersOk(s) && RequestsOk(s) && Step(u, s, t, e) && NeverDecreases(s, t) && AllSkipsHold(s)
    ensures AllSkipsHold(t)
  {
    forall x | x in t.requests ensures SkipsHold(t, t.requests[x]) {
      OnlyBeginAdds(u, s, t, e, x);
      if x in s.requests {
        StepKeepsSkips(u, s, t, e, x);
      }
    }
  }

  lemma StepKeepsInv(u: Tables, s: System, t: System, e: Event)
    requires Inv(u, s) && Step(u, s, t, e)
    ensures Inv(u, t)
  {
    StepKeepsClock(u, s, t, e);
    StepKeepsCounters(u, s, t, e);
    StepKeepsLedger(u, s, t, e);
    StepKeepsSettled(u, s, t, e);
    StepKeepsFaithful(u, s, t, e);
    StepKeepsAllSkips(u, s, t, e);
  }

  // ---------- whole runs ----------

  ghost predicate Run(u: Tables, states: seq<System>, events: seq<Event>) {
    && |states| == |events| + 1
    && states[0] == Initial(states[0].today)
    && forall i :: 0 <= i < |events| ==> Step(u, states[i], states[i + 1], events[i])
  }

  lemma {:induction false} RunKeepsInv(u: Tables, states: seq<System>, events: seq<Event>, n: nat)
    requires Run(u, states, events) && n < |states|
    ensures Inv(u, states[n])
  {
    if n > 0 {
      RunKeepsInv(u, states, events, n - 1);
      StepKeepsInv(u, states[n - 1], states[n], events[n - 1]);
    }
  }

  // ---------- which snapshot and which day a request works with ----------

  /** The snapshot published last among the first `n` events. */
  function LastPublished(events: seq<Event>, n: nat): Option<Published>
    requires n <= |events|
  {
    if n == 0 then None
    else match events[n - 1]
         case Publish(next) => Some(next)
         case _ => LastPublished(events, n - 1)
  }

  /** How often the day has changed in the first `n` events. */
  function DaysPassed(events: seq<Event>, n: nat): nat
    requires n <= |events|
  {
    if n == 0 then 0 else DaysPassed(events, n - 1) + if events[n - 1] == Tick then 1 else 0
  }

  ghost predicate Tells(s: System, t: System, e: Event) {
    match e
    case Publish(next) => t.published == Some(next) && t.today == s.today
    case Tick => t.published == s.published && t.today == s.today + 1
    case _ => t.published == s.published && t.today == s.today
  }

  /** A run as far as the published snapshot and the clock are concerned. */
  ghost predicate Telling(states: seq<System>, events: seq<Event>) {
    && |states| == |events| + 1 && states[0].published == None
    && forall i :: 0 <= i < |events| ==> Tells(states[i], states[i + 1], events[i])
  }

  lemma RunIsTelling(u: Tables, states: seq<System>, events: seq<Event>)
    requires Run(u, states, events)
    ensures Telling(states, events)
  {
    forall i | 0 <= i < |events| ensures Tells(states[i], states[i + 1], events[i]) {
      StepTells(u, states[i], states[i + 1], events[i]);
    }
  }

  lemma {:induction false} TellingTells(states: seq<System>, events: seq<Event>, n: nat)
    requires Telling(states, events) && n < |states|
    ensures states[n].published == LastPublished(events, n)
    ensures states[n].today == states[0].today + DaysPassed(events, n)
  {
    if n > 0 {
      TellingTells(states, events, n - 1);
      assert Tells(states[n - 1], states[n], events[n - 1]);
    }
  }

  lemma StepTells(u: Tables, s: System, t: System, e: Event)
    requires Step(u, s, t, e)
    ensures Tells(s, t, e)
  {
    match e
    case Pay(_, _) =>
    case _ =>
  }

  /** Over the events alone: what is published is the argument of the last publish, and the clock
      shows the first day plus the day changes. */
  lemma EventsTellSnapshotAndDay(u: Tables, states: seq<System>, events: seq<Event>, n: nat)
    requires Run(u, states, events) && n < |states|
    ensures states[n].published == LastPublished(events, n)
    ensures states[n].today == states[0].today + DaysPassed(events, n)
  {
    RunIsTelling(u, states, events);
    TellingTells(states, events, n);
  }

  /** Among the first `n` events the request began, on the snapshot published last before. */
  ghost predicate BeganOn(events: seq<Event>, n: nat, id: RequestId, query: AuctionRequest, snapshot: Published)
    requires n <= |events|
  {
    exists j :: 0 <= j < n && events[j] == Begin(id, query) && LastPublished(events, j) == Some(snapshot)
  }

  /** ... and read the clock when it showed this day. */
  ghost predicate ReadDay(first: Day, events: seq<Event>, n: nat, id: RequestId, day: Day)
    requires n <= |events|
  {
    exists j :: 0 <= j < n && events[j] == ReadClock(id) && day == first + DaysPassed(events, j)
  }

  ghost predicate Remembers(first: Day, events: seq<Event>, n: nat, id: RequestId, r: Request)
    requires n <= |events|
  {
    && BeganOn(events, n, id, r.query, r.snapshot)
    && (!r.stage.Opening? ==> ReadDay(first, events, n, id, r.day))
  }

  /** How a step leaves what a request remembers. */
  ghost predicate Carries(s: System, t: System, e: Event, id: RequestId)
    requires id in t.requests
  {
    var n := t.requests[id];
    if id in s.requests then
      var r := s.requests[id];
      && n.snapshot == r.snapshot && n.query == r.query
      && (!r.stage.Opening? ==> n.day == r.day && !n.stage.Opening?)
      && (r.stage.Opening? && !n.stage.Opening? ==> e == ReadClock(id) && n.day == s.today)
    else
      e == Begin(id, n.query) && s.published == Some(n.snapshot) && n.stage.Opening?
  }

  lemma StepCarries(u: Tables, s: System, t: System, e: Event, id: RequestId)
    requires Step(u, s, t, e) && id in t.requests
    ensures Carries(s, t, e, id)
  {
    OnlyBeginAdds(u, s, t, e, id);
    if id in s.requests {
      StepAdvances(u, s, t, e, id);
    }
  }

  lemma RunCarries(u: Tables, states: seq<System>, events: seq<Event>, i: nat, id: RequestId)
    requires Run(u, states, events) && i < |events| && id in states[i + 1].requests
    ensures Carries(states[i], states[i + 1], events[i], id)
  {
    StepCarries(u, states[i], states[i + 1], events[i], id);
  }

  lemma RememberOnward(first: Day, events: seq<Event>, n: nat, id: RequestId, r: Request)
    requires n < |events| && Remembers(first, events, n, id, r)
    ensures BeganOn(events, n + 1, id, r.query, r.snapshot)
    ensures !r.stage.Opening? ==> ReadDay(first, events, n + 1, id, r.day)
  {
    var j :| 0 <= j < n && events[j] == Begin(id, r.query) && LastPublished(events, j) == Some(r.snapshot);
    assert j < n + 1;
    if !r.stage.Opening? {
      var i :| 0 <= i < n && events[i] == ReadClock(id) && r.day == first + DaysPassed(events, i);
      assert i < n + 1;
    }
  }

  lemma RememberNext(first: Day, events: seq<Event>, n: nat, s: System, t: System, id: RequestId)
    requires n < |events| && id in t.requests && Carries(s, t, events[n], id)
    requires s.published == LastPublished(events, n) && s.today == first + DaysPassed(events, n)
    requires id in s.requests ==> Remembers(first, events, n, id, s.requests[id])
    ensures Remembers(first, events, n + 1, id, t.requests[id])
  {
    if id in s.requests {
      RememberOnward(first, events, n, id, s.requests[id]);
    }
  }

  /** A run as far as what one request remembers is concerned. */
  ghost predicate Remembering(states: seq<System>, events: seq<Event>, id: RequestId) {
    && Telling(states, events) && id !in states[0].requests
    && forall i :: 0 <= i < |events| && id in states[i + 1].requests ==> Carries(states[i], states[i + 1], events[i], id)
  }

  lemma RunIsRemembering(u: Tables, states: seq<System>, events: seq<Event>, id: RequestId)
    requires Run(u, states, events)
    ensures Remembering(states, events, id)
  {
    RunIsTelling(u, states, events);
    forall i | 0 <= i < |events| && id in states[i + 1].requests ensures Carries(states[i], states[i + 1], events[i], id) {
      RunCarries(u, states, events, i, id);
    }
  }

  lemma {:induction false} RememberedSince(states: seq<System>, events: seq<Event>, n: nat, id: RequestId)
    requires Remembering(states, events, id) && n < |states| && id in states[n].requests
    ensures Remembers(states[0].today, events, n, id, states[n].requests[id])
  {
    var s, t := states[n - 1], states[n];
    TellingTells(states, events, n - 1);
    if id in s.requests {
      RememberedSince(states, events, n - 1, id);
    }
    RememberNext(states[0].today, events, n - 1, s, t, id);
  }

  /** Every request works with the snapshot published last before it began, and charges the day the
      clock showed when it read it. */
  lemma RequestsRememberTheirStart(u: Tables, states: seq<System>, events: seq<Event>, n: nat, id: RequestId)
    requires Run(u, states, events) && n < |states| && id in states[n].requests
    ensures Remembers(states[0].today, events, n, id, states[n].requests[id])
  {
    RunIsRemembering(u, states, events, id);
    RememberedSince(states, events, n, id);
  }

  /** The assumption behind keeping yesterday's counters: no request is still under way when the
      clock is two days past the day it read. */
  ghost predicate Timely(s: System) {
    forall id :: id in s.requests && !s.requests[id].stage.Opening? && !s.requests[id].stage.Finished? ==>
      s.today <= s.requests[id].day + 1
  }

  ghost predicate TimelyRun(states: seq<System>) {
    forall i :: 0 <= i < |states| ==> Timely(states[i])
  }

  lemma TimelyStepIsOnTime(u: Tables, s: System, t: System, e: Event)
    requires ClockOk(s) && CountersOk(s) && RequestsOk(s) && Timely(s) && Step(u, s, t, e)
    requires forall i :: 0 <= i < |s.ledger| ==> !s.ledger[i].late
    ensures forall i :: 0 <= i < |t.ledger| ==> !t.ledger[i].late
  {
    if Accepts(e) {
      AcceptedSpend(s, t, e.id);
      assert s.requests[e.id].stage.Paying?;
    } else {
      OnlyAcceptsChangesLedger(u, s, t, e);
    }
  }

  lemma {:induction false} TimelyRunIsOnTime(u: Tables, states: seq<System>, events: seq<Event>, n: nat)
    requires Run(u, states, events) && TimelyRun(states) && n < |states|
    ensures forall i :: 0 <= i < |states[n].ledger| ==> !states[n].ledger[i].late
  {
    if n > 0 {
      TimelyRunIsOnTime(u, states, events, n - 1);
      RunKeepsInv(u, states, events, n - 1);
      TimelyStepIsOnTime(u, states[n - 1], states[n], events[n - 1]);
    }
  }

  /** Ledger safety, in every interleaving of auctions, publishes, day changes and pruning: the
      counters that cannot have been pruned hold exactly what was accepted for them; no counter,
      prunable or not, exceeds the largest budget it was charged against; and accepted spends and
      ads shown correspond one to one. */
  lemma LedgerSafety(u: Tables, states: seq<System>, events: seq<Event>, n: nat, k: Key)
    requires Run(u, states, events) && n < |states|
    ensures var s := states[n];
            && (k.day >= s.cutoff ==> SpentOn(View(s.counters), k) == LedgerSum(s.ledger, k))
            && 0 <= SpentOn(View(s.counters), k) <= LedgerSum(s.ledger, k)
            && SpentOn(View(s.counters), k) <= LedgerCap(s.ledger, k)
            && Settled(s)
  {
    RunKeepsInv(u, states, events, n);
  }

  // ---------- what pruning can lose ----------

  /** What the counters of `k` held when they were dropped, all in all. */
  ghost function Forgotten(states: seq<System>, events: seq<Event>, n: nat, k: Key): int
    requires n <= |events| <= |states|
  {
    if n == 0 then 0
    else Forgotten(states, events, n - 1, k)
         + if events[n - 1] == Evict(k) then SpentOn(View(states[n - 1].counters), k) else 0
  }

  /** A run as far as the money of one key is concerned. */
  ghost predicate MoneyTrail(states: seq<System>, events: seq<Event>, k: Key) {
    && |states| == |events| + 1
    && SpentOn(View(states[0].counters), k) == 0 == LedgerSum(states[0].ledger, k)
    && (forall i :: 0 <= i < |states| ==> MoneyOk(states[i], k))
    && (forall i :: 0 <= i < |events| ==> Moves(states[i], states[i + 1], events[i], k))
  }

  ghost predicate MoneyOk(s: System, k: Key) {
    0 <= SpentOn(View(s.counters), k) <= Min(LedgerSum(s.ledger, k), LedgerCap(s.ledger, k))
  }

  lemma RunLeavesTrail(u: Tables, states: seq<System>, events: seq<Event>, k: Key)
    requires Run(u, states, events)
    ensures MoneyTrail(states, events, k)
  {
    forall i | 0 <= i < |states| ensures MoneyOk(states[i], k) {
      LedgerSafety(u, states, events, i, k);
    }
    forall i | 0 <= i < |events| ensures Moves(states[i], states[i + 1], events[i], k) {
      RunKeepsInv(u, states, events, i);
      StepMovesMoney(u, states[i], states[i + 1], events[i], k);
    }
  }

  lemma {:induction false} ConservedOnTrail(states: seq<System>, events: seq<Event>, n: nat, k: Key)
    requires MoneyTrail(states, events, k) && n < |states|
    ensures LedgerSum(states[n].ledger, k)
            == SpentOn(View(states[n].counters), k) + Forgotten(states, events, n, k)
  {
    if n > 0 {
      ConservedOnTrail(states, events, n - 1, k);
      assert Moves(states[n - 1], states[n], events[n - 1], k);
    }
  }

  /** Conservation: whatever was accepted is either still on its counter or was dropped with it. */
  lemma MoneyIsConserved(u: Tables, states: seq<System>, events: seq<Event>, n: nat, k: Key)
    requires Run(u, states, events) && n < |states|
    ensures LedgerSum(states[n].ledger, k)
            == SpentOn(View(states[n].counters), k) + Forgotten(states, events, n, k)
  {
    RunLeavesTrail(u, states, events, k);
    ConservedOnTrail(states, events, n, k);
  }

  /** No counter of `k` was dropped after something had been accepted for it. */
  ghost predicate NothingLost(states: seq<System>, events: seq<Event>, n: nat, k: Key)
    requires n <= |events| <= |states|
  {
    forall i :: 0 <= i < n && events[i] == Evict(k) ==> LedgerSum(states[i].ledger, k) == 0
  }

  lemma {:induction false} TrueOnTrailIff(states: seq<System>, events: seq<Event>, n: nat, k: Key)
    requires MoneyTrail(states, events, k) && n < |states|
    ensures SpentOn(View(states[n].counters), k) == LedgerSum(states[n].ledger, k) <==> NothingLost(states, events, n, k)
  {
    if n > 0 {
      TrueOnTrailIff(states, events, n - 1, k);
      assert Moves(states[n - 1], states[n], events[n - 1], k);
      assert MoneyOk(states[n - 1], k) && MoneyOk(states[n], k);
    }
  }

  /** Exactly when a counter tells all that was accepted: as long as it was never dropped with
      something on it. */
  lemma CounterIsTrueIff(u: Tables, states: seq<System>, events: seq<Event>, n: nat, k: Key)
    requires Run(u, states, events) && n < |states|
    ensures SpentOn(View(states[n].counters), k) == LedgerSum(states[n].ledger, k) <==> NothingLost(states, events, n, k)
  {
    RunLeavesTrail(u, states, events, k);
    TrueOnTrailIff(states, events, n, k);
  }

  /** Step `j` charges `k`. */
  ghost predicate Charges(states: seq<System>, j: nat, k: Key)
    requires j + 1 < |states|
  {
    LedgerSum(states[j + 1].ledger, k) != LedgerSum(states[j].ledger, k)
  }

  /** `k` is not charged once a counter of it has been dropped with something on it. */
  ghost predicate NeverChargedAfterALoss(states: seq<System>, events: seq<Event>, n: nat, k: Key)
    requires n <= |events| == |states| - 1
  {
    forall j :: 0 <= j < n && Charges(states, j, k) ==> NothingLost(states, events, j, k)
  }

  lemma {:induction false} WithinBudgetOnTrail(states: seq<System>, events: seq<Event>, n: nat, k: Key)
    requires MoneyTrail(states, events, k) && n < |states| && NeverChargedAfterALoss(states, events, n, k)
    ensures 0 <= LedgerSum(states[n].ledger, k) <= LedgerCap(states[n].ledger, k)
  {
    assert MoneyOk(states[n], k);
    if n > 0 {
      WithinBudgetOnTrail(states, events, n - 1, k);
      assert Moves(states[n - 1], states[n], events[n - 1], k);
      if Charges(states, n - 1, k) {
        TrueOnTrailIff(states, events, n - 1, k);
      }
    }
  }

  /** Overspending takes a charge after a loss: any other campaign's day stays within the largest
      budget it was charged against, though its counters may have been dropped meanwhile. */
  lemma OnlyChargesAfterALossOverspend(u: Tables, states: seq<System>, events: seq<Event>, n: nat, k: Key)
    requires Run(u, states, events) && n < |states| && NeverChargedAfterALoss(states, events, n, k)
    ensures 0 <= LedgerSum(states[n].ledger, k) <= LedgerCap(states[n].ledger, k)
  {
    RunLeavesTrail(u, states, events, k);
    WithinBudgetOnTrail(states, events, n, k);
  }

  /** Neither the pruned days nor the ledger ever shrink. */
  ghost predicate Growing(states: seq<System>) {
    forall i :: 0 <= i < |states| - 1 ==> GrowsInto(states[i], states[i + 1])
  }

  ghost predicate GrowsInto(s: System, t: System) {
    s.cutoff <= t.cutoff && s.ledger <= t.ledger
  }

  lemma RunIsGrowing(u: Tables, states: seq<System>, events: seq<Event>)
    requires Run(u, states, events)
    ensures Growing(states)
  {
    forall i | 0 <= i < |states| - 1 ensures GrowsInto(states[i], states[i + 1]) {
      RunKeepsInv(u, states, events, i);
      StepAppends(u, states[i], states[i + 1], events[i]);
    }
  }

  lemma {:induction false} GrownSince(states: seq<System>, i: nat, n: nat)
    requires Growing(states) && i <= n < |states|
    ensures GrowsInto(states[i], states[n])
    decreases n
  {
    if i < n {
      GrownSince(states, i, n - 1);
      assert GrowsInto(states[n - 1], states[n]);
    }
  }

  lemma HistoryGrows(u: Tables, states: seq<System>, events: seq<Event>, i: nat, n: nat)
    requires Run(u, states, events) && i <= n < |states|
    ensures GrowsInto(states[i], states[n])
  {
    RunIsGrowing(u, states, events);
    GrownSince(states, i, n);
  }

  lemma StepAppends(u: Tables, s: System, t: System, e: Event)
    requires CountersOk(s) && RequestsOk(s) && Step(u, s, t, e)
    ensures s.cutoff <= t.cutoff && s.ledger <= t.ledger
  {
    StepKeepsCounters(u, s, t, e);
    if Accepts(e) {
      AcceptedSpend(s, t, e.id);
    } else {
      OnlyAcceptsChangesLedger(u, s, t, e);
    }
  }

  /** A charge after a loss is late, and stays on record. */
  lemma ChargeAfterALossIsLate(u: Tables, states: seq<System>, events: seq<Event>, i: nat, j: nat, n: nat, k: Key)
    requires Run(u, states, events) && i < j < n < |states| && events[i] == Evict(k) && Charges(states, j, k)
    ensures !OnTime(states[n].ledger, k)
  {
    EvictedDay(u, states, events, i, k);
    HistoryGrows(u, states, events, i, j);
    HistoryGrows(u, states, events, j + 1, n);
    RunLogsCharge(u, states, events, j, k);
    LateStays(states[j + 1].ledger, states[n].ledger, |states[j].ledger|, k);
  }

  lemma LateStays(ledger: seq<Entry>, longer: seq<Entry>, at: nat, k: Key)
    requires ledger <= longer && at < |ledger| && ledger[at].key == k && ledger[at].late
    ensures !OnTime(longer, k)
  {
    assert longer[at] == ledger[at];
  }

  lemma RunLogsCharge(u: Tables, states: seq<System>, events: seq<Event>, j: nat, k: Key)
    requires Run(u, states, events) && j < |events| && Charges(states, j, k)
    ensures Logged(states[j], states[j + 1], k)
  {
    RunKeepsInv(u, states, events, j);
    ChargeIsLogged(u, states[j], states[j + 1], events[j], k);
  }

  /** The new entry, late iff its day could already have been pruned. */
  ghost predicate Logged(s: System, t: System, k: Key) {
    && |t.ledger| == |s.ledger| + 1
    && t.ledger[|s.ledger|].key == k && t.ledger[|s.ledger|].late == (k.day < s.cutoff)
  }

  lemma EvictedDay(u: Tables, states: seq<System>, events: seq<Event>, i: nat, k: Key)
    requires Run(u, states, events) && i < |events| && events[i] == Evict(k)
    ensures k.day < states[i].cutoff
  {
    assert Step(u, states[i], states[i + 1], events[i]);
  }

  /** Spends that were on time are never charges after a loss. */
  lemma OnTimeIsNeverAfterALoss(u: Tables, states: seq<System>, events: seq<Event>, n: nat, k: Key)
    requires Run(u, states, events) && n < |states| && OnTime(states[n].ledger, k)
    ensures NeverChargedAfterALoss(states, events, n, k)
  {
    forall j, i | 0 <= i < j < n && Charges(states, j, k) && events[i] == Evict(k) ensures false {
      ChargeAfterALossIsLate(u, states, events, i, j, n, k);
    }
  }

  lemma ChargeIsLogged(u: Tables, s: System, t: System, e: Event, k: Key)
    requires CountersOk(s) && RequestsOk(s) && Step(u, s, t, e) && LedgerSum(t.ledger, k) != LedgerSum(s.ledger, k)
    ensures Logged(s, t, k)
  {
    if Accepts(e) {
      AcceptedSpend(s, t, e.id);
      LedgerGrows(s.ledger, t.ledger[|s.ledger|], k);
    } else {
      OnlyAcceptsChangesLedger(u, s, t, e);
    }
  }

  /** In a timely run there are no late spends at all, so no day is ever overspent, not even
      after its counters are gone. */
  lemma TimelyRunsNeverOverspend(u: Tables, states: seq<System>, events: seq<Event>, n: nat, k: Key)
    requires Run(u, states, events) && TimelyRun(states) && n < |states|
    ensures 0 <= LedgerSum(states[n].ledger, k) <= LedgerCap(states[n].ledger, k)
  {
    TimelyRunIsOnTime(u, states, events, n);
    OnTimeIsNeverAfterALoss(u, states, events, n, k);
    OnlyChargesAfterALossOverspend(u, states, events, n, k);
  }

  /** The step in which a request's auction ends. */
  ghost predicate Completes(s: System, t: System, id: RequestId) {
    && id in s.requests && id in t.requests
    && !s.requests[id].stage.Finished? && t.requests[id].stage.Finished?
  }

  /** At the step that ends an auction its winner is the first who can pay at that moment. */
  lemma CompletionIsAtomicWalk(u: Tables, s: System, t: System, e: Event, id: RequestId)
    requires CountersOk(s) && RequestsOk(s) && Step(u, s, t, e) && Completes(s, t, id)
    requires SkipsHold(s, s.requests[id]) && s.requests[id].day >= s.cutoff
    ensures t.requests[id] == s.requests[id].(stage := t.requests[id].stage)
    ensures var r := t.requests[id];
            && FirstPayer(r.offers, r.day, View(s.counters), 0) == r.stage.winner
            && match r.stage.winner
               case Some(w) => w < |r.offers| && Charged(View(s.counters), View(t.counters), r.day, r.offers[w])
               case None => SameSpend(View(s.counters), View(t.counters))
  {
    StepAdvances(u, s, t, e, id);
    assert RequestOk(s, id);
    if Won(t.requests[id]) {
      WinningIsAtomic(s, t, id);
    } else {
      GivingUpIsAtomic(s, t, id);
    }
  }

  lemma WinningIsAtomic(s: System, t: System, id: RequestId)
    requires CountersOk(s) && RequestsOk(s) && PayStep(s, t, id, Cas.Swap)
    requires SkipsHold(s, s.requests[id]) && s.requests[id].day >= s.cutoff
    ensures var r := s.requests[id];
            && t.requests[id].stage == Finished(Some(r.at))
            && FirstPayer(r.offers, r.day, View(s.counters), 0) == Some(r.at)
            && Charged(View(s.counters), View(t.counters), r.day, r.offers[r.at])
  {
    var r := s.requests[id];
    AcceptedSpend(s, t, id);
    FirstPayerIs(r.offers, r.day, View(s.counters), r.at);
  }

  lemma GivingUpIsAtomic(s: System, t: System, id: RequestId)
    requires GiveUpStep(s, t, id) && SkipsHold(s, s.requests[id]) && s.requests[id].day >= s.cutoff
    ensures var r := s.requests[id];
            FirstPayer(r.offers, r.day, View(s.counters), 0) == None && SameSpend(View(s.counters), View(t.counters))
  {
    var r := s.requests[id];
    FirstPayerIsFirst(r.offers, r.day, View(s.counters), 0);
  }

  lemma FirstPayerIs(offers: seq<Offer>, day: Day, m: Counters, w: nat)
    requires w < |offers| && CanPay(m, day, offers[w])
    requires forall j :: 0 <= j < w ==> !CanPay(m, day, offers[j])
    ensures FirstPayer(offers, day, m, 0) == Some(w)
  {
    FirstPayerIsFirst(offers, day, m, 0);
  }

  /** Concurrent auctions are linearisable: whatever other requests, the publisher and the pruner
      did meanwhile, the outcome a request returns is the outcome of the whole sequential auction
      run atomically, at the step that ends it, on the campaigns published last before the request
      began and for the day it read; and that step changes the counters exactly as it would. This needs only that the
      request's day cannot have been pruned yet, as in every timely run. */
  lemma AuctionsAreLinearizable(u: Tables, states: seq<System>, events: seq<Event>, n: nat, id: RequestId)
    requires Run(u, states, events) && n < |events|
    requires Completes(states[n], states[n + 1], id)
    requires states[n].requests[id].day >= states[n].cutoff || Timely(states[n])
    ensures var s, t := states[n], states[n + 1];
            var r := t.requests[id];
            var p := r.snapshot;
            && Remembers(states[0].today, events, n + 1, id, r)
            && ReferenceAuction(u, p.campaigns, p.cfg, r.query, r.day, View(s.counters))
               == Success(OutcomeFor(u, p.campaigns, p.cfg, r.query, r.stage.winner))
            && match r.stage.winner
               case Some(w) =>
                 && w < |r.offers| && r.offers == RankedOffers(u, p.campaigns, p.cfg, r.query)
                 && Charged(View(s.counters), View(t.counters), r.day, r.offers[w])
               case None => SameSpend(View(s.counters), View(t.counters))
  {
    var s, t := states[n], states[n + 1];
    RunKeepsInv(u, states, events, n);
    StepAdvances(u, s, t, events[n], id);
    assert RequestOk(s, id);
    assert s.requests[id].day >= s.cutoff;
    CompletionIsAtomicWalk(u, s, t, events[n], id);
    FaithfulOutcome(u, s.requests[id], View(s.counters));
    RequestsRememberTheirStart(u, states, events, n + 1, id);
  }

  lemma FaithfulOutcome(u: Tables, r: Request, m: Counters)
    requires Faithful(u, r)
    ensures ReferenceAuction(u, r.snapshot.campaigns, r.snapshot.cfg, r.query, r.day, m)
            == Success(OutcomeFor(u, r.snapshot.campaigns, r.snapshot.cfg, r.query, FirstPayer(r.offers, r.day, m, 0)))
  {}

  /** Skips are never stale: as long as its day cannot have been pruned, everybody a request has
      passed over is still unable to pay, during the walk and after it. */
  lemma SkipsAreNeverStale(u: Tables, states: seq<System>, events: seq<Event>, n: nat, id: RequestId, j: nat)
    requires Run(u, states, events) && n < |states| && id in states[n].requests
    requires var r := states[n].requests[id];
             r.day >= states[n].cutoff && j < r.at && j < |r.offers|
    ensures var r := states[n].requests[id]; !CanPay(View(states[n].counters), r.day, r.offers[j])
  {
    RunKeepsInv(u, states, events, n);
    assert SkipsHold(states[n], states[n].requests[id]);
  }
}
