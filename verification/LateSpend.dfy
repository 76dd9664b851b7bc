/** Why the day of slack matters: a request still under way two days after it read the clock can
    spend a campaign's whole budget for its day a second time. */
module LateSpend {
  import opened Model
  import opened Normalization
  import opened Budgets
  import opened Matching
  import opened Specification
  import opened Service
  import opened Examples
  import Cas = CasCounter

  const ADVERT := Advert(0)

  const SEARCH := Search(false)

  const ONLY_OFFER := Offer(0, 100, 150)

  /** One campaign of budget 150 offers 100 for the search. */
  lemma SearchHasOneOffer()
    ensures RankedOffers(PLAIN, [ADVERT], SETTINGS, SEARCH) == [ONLY_OFFER]
    ensures UniqueIds([ADVERT])
  {
    assert Crowd(1) == [ADVERT] && CrowdOffers(1) == [ONLY_OFFER];
    CrowdHasOffers(1, false);
    CrowdIsUnique(1);
  }

  lemma Extend(u: Tables, states: seq<System>, events: seq<Event>, t: System, e: Event)
    requires Run(u, states, events) && Step(u, states[|states| - 1], t, e)
    ensures Run(u, states + [t], events + [e])
  {}

  /** A request at its only offer, whose counter is gone, creates it and spends. */
  lemma SpendAfresh(u: Tables, states: seq<System>, events: seq<Event>, id: RequestId)
      returns (more: seq<System>, moreEvents: seq<Event>)
    requires Run(u, states, events)
    requires var s := states[|states| - 1];
      && id in s.requests && s.requests[id].offers == [ONLY_OFFER] && s.requests[id].at == 0
      && s.requests[id].stage == Walking && Key(0, s.requests[id].day) !in s.counters
    ensures Run(u, more, moreEvents)
    ensures var s, t := states[|states| - 1], more[|more| - 1];
      var key := Key(0, s.requests[id].day);
      && t.ledger == s.ledger + [Entry(id, key, 100, 150, key.day < s.cutoff)]
      && t == s.(ledger := t.ledger, counters := t.counters, requests := t.requests)
      && t.counters.Keys == s.counters.Keys + {key} && t.counters[key].calls == map[]
      && t.requests.Keys == s.requests.Keys
  {
    var s := states[|states| - 1];
    var r := s.requests[id];
    var key := KeyAt(r, 0);
    assert key == Key(0, r.day);
    var creating := SetRequest(s, id, r.(stage := Creating));
    Extend(u, states, events, creating, Lookup(id));
    var entered := Cas.FRESH.(calls := map[id := Cas.Call(100, 150, Cas.Invoked)]);
    var paying := SetRequest(creating, id, r.(stage := Paying)).(counters := s.counters[key := entered]);
    assert Cas.FRESH.calls[id := Cas.Call(100, 150, Cas.Invoked)] == entered.calls;
    Extend(u, states + [creating], events + [Lookup(id)], paying, Create(id));
    var loaded := entered.(calls := map[id := Cas.Call(100, 150, Cas.Loaded(0, 0, 0))]);
    assert loaded.calls == entered.calls[id := Cas.Call(100, 150, Cas.Loaded(0, 0, 0))];
    assert Cas.Step(entered, loaded, id, Cas.Read(0));
    var read := paying.(counters := paying.counters[key := loaded]);
    Extend(u, states + [creating] + [paying], events + [Lookup(id)] + [Create(id)], read, Pay(id, Cas.Read(0)));
    var swapped := Cas.Decide(loaded, id, true).(history := [0, 100]);
    assert Cas.Step(loaded, swapped, id, Cas.Swap) by {
      assert [0] + [100] == [0, 100];
    }
    var spent := SetRequest(read.(counters := read.counters[key := swapped]), id, r.(stage := Finished(Some(0))))
      .(ledger := s.ledger + [Entry(id, key, 100, 150, key.day < s.cutoff)]);
    Extend(u, states + [creating] + [paying] + [read],
           events + [Lookup(id)] + [Create(id)] + [Pay(id, Cas.Read(0))], spent, Pay(id, Cas.Swap));
    more := states + [creating] + [paying] + [read] + [spent];
    moreEvents := events + [Lookup(id)] + [Create(id)] + [Pay(id, Cas.Read(0))] + [Pay(id, Cas.Swap)];
  }

  /** A request begins on the published campaign and reads the clock. */
  lemma Arrive(states: seq<System>, events: seq<Event>, id: RequestId)
      returns (more: seq<System>, moreEvents: seq<Event>)
    requires Run(PLAIN, states, events)
    requires var s := states[|states| - 1];
      s.published == Some(Published([ADVERT], SETTINGS)) && id !in s.requests
    ensures Run(PLAIN, more, moreEvents)
    ensures var s, t := states[|states| - 1], more[|more| - 1];
      t == SetRequest(s, id, Request(Published([ADVERT], SETTINGS), SEARCH, [ONLY_OFFER], s.today, 0, Walking))
  {
    SearchHasOneOffer();
    SearchTokens();
    var s := states[|states| - 1];
    var fresh0 := Request(Published([ADVERT], SETTINGS), SEARCH, [ONLY_OFFER], 0, 0, Opening);
    var opened0 := SetRequest(s, id, fresh0);
    Extend(PLAIN, states, events, opened0, Begin(id, SEARCH));
    var walking := SetRequest(opened0, id, fresh0.(day := s.today, stage := Walking));
    Extend(PLAIN, states + [opened0], events + [Begin(id, SEARCH)], walking, ReadClock(id));
    more, moreEvents := states + [opened0] + [walking], events + [Begin(id, SEARCH)] + [ReadClock(id)];
  }

  /** Two days pass and the first one's counter is dropped. */
  lemma TwoDaysLater(u: Tables, states: seq<System>, events: seq<Event>)
      returns (more: seq<System>, moreEvents: seq<Event>)
    requires Run(u, states, events)
    requires var s := states[|states| - 1];
      s.today == 0 && s.cutoff == 0 && s.counters.Keys == {Key(0, 0)} && s.counters[Key(0, 0)].calls == map[]
    ensures Run(u, more, moreEvents)
    ensures more[|more| - 1] == states[|states| - 1].(today := 2, cutoff := 1, counters := map[])
  {
    var s := states[|states| - 1];
    var a, b := s.(today := 1), s.(today := 2);
    Extend(u, states, events, a, Tick);
    Extend(u, states + [a], events + [Tick], b, Tick);
    var c := b.(cutoff := 1);
    Extend(u, states + [a] + [b], events + [Tick] + [Tick], c, PruneBegin);
    var d := c.(counters := map[]);
    assert c.counters - {Key(0, 0)} == map[];
    Extend(u, states + [a] + [b] + [c], events + [Tick] + [Tick] + [PruneBegin], d, Evict(Key(0, 0)));
    more := states + [a] + [b] + [c] + [d];
    moreEvents := events + [Tick] + [Tick] + [PruneBegin] + [Evict(Key(0, 0))];
  }

  /** Without timeliness the budget does not hold: 200 is accepted for a day with a budget of 150. */
  lemma LateSpendOverspends() returns (states: seq<System>, events: seq<Event>)
    ensures Run(PLAIN, states, events) && !TimelyRun(states)
    ensures var s := states[|states| - 1];
      LedgerSum(s.ledger, Key(0, 0)) == 200 && LedgerCap(s.ledger, Key(0, 0)) == 150
  {
    var s0 := Initial(0);
    states, events := [s0], [];
    var s1 := s0.(published := Some(Published([ADVERT], SETTINGS)));
    SearchHasOneOffer();
    Extend(PLAIN, states, events, s1, Publish(Published([ADVERT], SETTINGS)));
    states, events := states + [s1], events + [Publish(Published([ADVERT], SETTINGS))];
    states, events := Arrive(states, events, 0);
    states, events := SpendAfresh(PLAIN, states, events, 0);
    var first := states[|states| - 1].ledger;
    states, events := Arrive(states, events, 1);
    states, events := TwoDaysLater(PLAIN, states, events);
    ghost var stale := |states| - 1;
    assert !Timely(states[stale]) by {
      assert states[stale].requests[1].stage == Walking;
    }
    states, events := SpendAfresh(PLAIN, states, events, 1);
    var last := states[|states| - 1];
    LedgerGrows([], first[0], Key(0, 0));
    LedgerGrows(first, last.ledger[1], Key(0, 0));
    assert first == [] + [first[0]] && last.ledger == first + [last.ledger[1]];
    if TimelyRun(states) {
      TimelyRunsNeverOverspend(PLAIN, states, events, |states| - 1, Key(0, 0));
    }
  }
}
