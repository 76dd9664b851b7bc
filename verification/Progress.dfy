/** No request of the running service is ever stuck: left alone it ends, within a bound known from
    the length of its ranking; and nothing stands in the way of publishing, pruning or arriving. */
module Progress {
  import opened Model
  import opened Normalization
  import opened Budgets
  import opened Matching
  import opened Specification
  import opened Service
  import Cas = CasCounter

  /** The event is a step of this request. */
  predicate Own(e: Event, id: RequestId) {
    match e
    case ReadClock(x) => x == id
    case Invalid(x) => x == id
    case Lookup(x) => x == id
    case Create(x) => x == id
    case Pay(x, _) => x == id
    case GiveUp(x) => x == id
    case _ => false
  }

  /** A call on a counter: its first load to come, an exchange bound to fail, one that may succeed. */
  function CallRank(c: Cas.Counter, id: RequestId): nat {
    if id !in c.calls then 0
    else match c.calls[id].progress
         case Invoked => 6
         case Loaded(_, at, _) => if at + 1 < |c.history| then 5 else 4
  }

  /** How many steps of its own a request still needs at most. */
  function Rank(s: System, id: RequestId): nat
    requires id in s.requests
  {
    var r := s.requests[id];
    var left := if r.at <= |r.offers| then 10 * (|r.offers| - r.at) else 0;
    match r.stage
    case Opening => left + 9
    case Walking => left + 8
    case Creating => left + 7
    case Paying => left + if r.at < |r.offers| && KeyAt(r, r.at) in s.counters then CallRank(s.counters[KeyAt(r, r.at)], id) else 0
    case Finished(_) => 0
  }

  /** A step of the request's own that brings it nearer to its end. */
  ghost predicate Turn(u: Tables, s: System, t: System, e: Event, id: RequestId)
    requires id in s.requests
  {
    Own(e, id) && Step(u, s, t, e) && id in t.requests && Rank(t, id) < Rank(s, id)
  }

  lemma NotHeld(s: System, id: RequestId, k: Key)
    requires CallsMatch(s) && id in s.requests && !s.requests[id].stage.Paying? && k in s.counters
    ensures id !in s.counters[k].calls
  {}

  /** Taking hold of a counter. */
  lemma GrabTurn(s: System, id: RequestId, c: Cas.Counter) returns (t: System)
    requires id in s.requests && s.requests[id].at < |s.requests[id].offers|
    requires s.requests[id].offers[s.requests[id].at].price > 0 && id !in c.calls
    requires s.requests[id].stage.Walking? || s.requests[id].stage.Creating?
    ensures Grab(s, t, id, c) && id in t.requests && Rank(t, id) < Rank(s, id)
  {
    var r := s.requests[id];
    var o := r.offers[r.at];
    var d := c.(calls := c.calls[id := Cas.Call(o.price, o.dailyBudget, Cas.Invoked)]);
    t := SetRequest(s, id, r.(stage := Paying)).(counters := s.counters[KeyAt(r, r.at) := d]);
    assert Cas.Step(c, d, id, Cas.Enter(o.price, o.dailyBudget));
  }

  lemma WalkTurn(u: Tables, s: System, id: RequestId) returns (t: System, e: Event)
    requires CallsMatch(s) && id in s.requests && RequestOk(s, id) && s.requests[id].stage.Walking?
    ensures Turn(u, s, t, e, id)
  {
    var r := s.requests[id];
    if r.at == |r.offers| {
      t, e := SetRequest(s, id, r.(stage := Finished(None))), GiveUp(id);
    } else if r.offers[r.at].price <= 0 {
      t, e := SetRequest(s, id, r.(at := r.at + 1)), Invalid(id);
    } else {
      e := Lookup(id);
      var key := KeyAt(r, r.at);
      if key in s.counters {
        NotHeld(s, id, key);
        t := GrabTurn(s, id, s.counters[key]);
      } else {
        t := SetRequest(s, id, r.(stage := Creating));
      }
    }
  }

  lemma CreateTurn(u: Tables, s: System, id: RequestId) returns (t: System, e: Event)
    requires CallsMatch(s) && id in s.requests && RequestOk(s, id) && s.requests[id].stage.Creating?
    ensures Turn(u, s, t, e, id)
  {
    var r := s.requests[id];
    var key := KeyAt(r, r.at);
    e := Create(id);
    if key in s.counters {
      NotHeld(s, id, key);
      t := GrabTurn(s, id, s.counters[key]);
    } else {
      t := GrabTurn(s, id, Cas.FRESH);
    }
  }

  /** One operation of the loop, on the newest value: it decides the call or reads that value. */
  lemma CallTurn(c: Cas.Counter, id: RequestId) returns (d: Cas.Counter, op: Cas.Event)
    requires Cas.Inv(c) && id in c.calls
    ensures Cas.Step(c, d, id, op) && !op.Enter? && CallRank(d, id) < CallRank(c, id)
    ensures op.Swap? ==> id !in d.calls
  {
    var call, last := c.calls[id], |c.history| - 1;
    assert Cas.CallOk(c, call);
    match call.progress {
      case Invoked =>
        op := Cas.Read(last);
        d := Cas.Examined(c, id, last, last, 0);
      case Loaded(first, at, failures) =>
        NextTotalIsBudgetTest(c.history[at], call.amount, call.dailyBudget);
        if at == last {
          op := Cas.Swap;
          d := Cas.Decide(c, id, true).(history := c.history
            + [NextTotal(c.history[at], call.amount, call.dailyBudget).value]);
        } else {
          op := Cas.Retry(last);
          d := Cas.Examined(c, id, first, last, failures + 1);
        }
    }
  }

  lemma PayTo(s: System, id: RequestId, d: Cas.Counter, op: Cas.Event) returns (t: System)
    requires id in s.requests && RequestOk(s, id) && s.requests[id].stage.Paying? && !op.Enter?
    requires Cas.Step(s.counters[KeyAt(s.requests[id], s.requests[id].at)], d, id, op)
    ensures PayStep(s, t, id, op) && t.counters == s.counters[KeyAt(s.requests[id], s.requests[id].at) := d]
    ensures var r := s.requests[id];
            t.requests == if id in d.calls then s.requests
                          else s.requests[id := if op.Swap? then r.(stage := Finished(Some(r.at)))
                                                else r.(at := r.at + 1, stage := Walking)]
  {
    var r := s.requests[id];
    var key, o := KeyAt(r, r.at), r.offers[r.at];
    var held := s.(counters := s.counters[key := d]);
    if id in d.calls {
      t := held;
    } else if op.Swap? {
      t := SetRequest(held, id, r.(stage := Finished(Some(r.at))))
        .(ledger := s.ledger + [Entry(id, key, o.price, o.dailyBudget, key.day < s.cutoff)]);
    } else {
      t := SetRequest(held, id, r.(at := r.at + 1, stage := Walking));
    }
  }

  lemma PayTurn(u: Tables, s: System, id: RequestId) returns (t: System, e: Event)
    requires SoundCounters(s.counters) && id in s.requests && RequestOk(s, id) && s.requests[id].stage.Paying?
    ensures Turn(u, s, t, e, id)
  {
    var d, op := CallTurn(s.counters[KeyAt(s.requests[id], s.requests[id].at)], id);
    e := Pay(id, op);
    t := PayTo(s, id, d, op);
  }

  /** An unfinished request always has a step of its own that brings it nearer to its end. */
  lemma NobodyIsStuck(u: Tables, s: System, id: RequestId) returns (t: System, e: Event)
    requires CountersOk(s) && RequestsOk(s) && id in s.requests && !s.requests[id].stage.Finished?
    ensures Turn(u, s, t, e, id)
  {
    var r := s.requests[id];
    assert RequestOk(s, id);
    match r.stage {
      case Opening => t, e := SetRequest(s, id, r.(day := s.today, stage := Walking)), ReadClock(id);
      case Walking => t, e := WalkTurn(u, s, id);
      case Creating => t, e := CreateTurn(u, s, id);
      case Paying => t, e := PayTurn(u, s, id);
    }
  }

  /** The request takes only steps of its own and is finished at the end. */
  ghost predicate Finishes(u: Tables, s: System, states: seq<System>, events: seq<Event>, id: RequestId) {
    && |states| == |events| + 1 && states[0] == s
    && (forall i :: 0 <= i < |events| ==> Own(events[i], id) && Step(u, states[i], states[i + 1], events[i]))
    && id in states[|events|].requests && states[|events|].requests[id].stage.Finished?
  }

  lemma FinishesFrom(u: Tables, s: System, t: System, e: Event, states: seq<System>, events: seq<Event>, id: RequestId)
    requires Own(e, id) && Step(u, s, t, e) && Finishes(u, t, states, events, id)
    ensures Finishes(u, s, [s] + states, [e] + events, id)
  {
    var more, all := [s] + states, [e] + events;
    forall i | 0 <= i < |all| ensures Own(all[i], id) && Step(u, more[i], more[i + 1], all[i]) {
      if i > 0 {
        assert all[i] == events[i - 1] && more[i] == states[i - 1] && more[i + 1] == states[i];
      }
    }
    assert more[|all|] == states[|events|];
  }

  /** From any state of any run a request left alone ends, after at most ten steps for each offer
      it has not passed and nine more. */
  lemma LeftAloneARequestEnds(u: Tables, s: System, id: RequestId) returns (states: seq<System>, events: seq<Event>)
    requires CountersOk(s) && RequestsOk(s) && id in s.requests
    ensures Finishes(u, s, states, events, id) && |events| <= Rank(s, id)
    decreases Rank(s, id)
  {
    if s.requests[id].stage.Finished? {
      states, events := [s], [];
    } else {
      var t, e := NobodyIsStuck(u, s, id);
      StepKeepsCounters(u, s, t, e);
      states, events := LeftAloneARequestEnds(u, t, id);
      FinishesFrom(u, s, t, e, states, events, id);
      states, events := [s] + states, [e] + events;
    }
  }

  /** When the rest of the world can act: to publish, change the day and start pruning always; to
      drop a counter just when its day is prunable and nobody holds it; to begin just with a new
      request whose query is accepted, once something is published. */
  lemma WorldIsFree(u: Tables, s: System, next: Published, key: Key, id: RequestId, query: AuctionRequest)
    ensures UniqueIds(next.campaigns) ==> exists t :: Step(u, s, t, Publish(next))
    ensures exists t :: Step(u, s, t, Tick)
    ensures exists t :: Step(u, s, t, PruneBegin)
    ensures (exists t :: Step(u, s, t, Evict(key))) <==>
      key in s.counters && key.day < s.cutoff && s.counters[key].calls == map[]
    ensures (exists t :: Step(u, s, t, Begin(id, query))) <==>
      id !in s.requests && s.published.Some? && Normalize(u, query.query).Success?
  {
    assert Step(u, s, s.(today := s.today + 1), Tick);
    assert Step(u, s, s.(cutoff := Max(s.cutoff, PruneDay(s.today))), PruneBegin);
    if UniqueIds(next.campaigns) {
      assert Step(u, s, s.(published := Some(next)), Publish(next));
    }
    if key in s.counters && key.day < s.cutoff && s.counters[key].calls == map[] {
      assert Step(u, s, s.(counters := s.counters - {key}), Evict(key));
    }
    if id !in s.requests && s.published.Some? && Normalize(u, query.query).Success? {
      var p := s.published.value;
      assert Step(u, s, SetRequest(s, id, Request(p, query, RankedOffers(u, p.campaigns, p.cfg, query), 0, 0, Opening)),
                  Begin(id, query));
    }
  }
}
