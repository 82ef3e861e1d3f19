/**
 Concurrent calls of one translator: each critical section of translator.go:58-82 is one atomic
 step, and the steps of any number of calls interleave freely.
 */
module TranslatorRuns {
  import opened Translator

  type Call = nat

  /** How far a call has come. */
  datatype Stage =
    | Called(sql: string)
    | FoundEntry(sql: string, cached: string)
    | FoundNothing(sql: string)
    | Translated(sql: string, text: string)
    | Finished(sql: string, result: Outcome<string>, hit: bool)

  datatype System = System(cache: map<string, string>, hits: nat, misses: nat, calls: map<Call, Stage>)

  const INITIAL := System(map[], 0, 0, map[])

  datatype Action = Begin(sql: string) | Look | Count | Translate | Store

  ghost predicate Enabled(s: System, c: Call, a: Action) {
    match a
    case Begin(_) => c !in s.calls
    case Look => c in s.calls && s.calls[c].Called?
    case Count => c in s.calls && s.calls[c].FoundEntry?
    case Translate => c in s.calls && s.calls[c].FoundNothing?
    case Store => c in s.calls && s.calls[c].Translated?
  }

  function Move(s: System, c: Call, stage: Stage): System {
    s.(calls := s.calls[c := stage])
  }

  ghost function Step<S>(b: Backend<S>, s: System, c: Call, a: Action): System
    requires Enabled(s, c, a)
  {
    match a
    case Begin(sql) => Move(s, c, Called(sql))
    case Look =>
      var sql := s.calls[c].sql;
      Move(s, c, if Key(b, sql) in s.cache then FoundEntry(sql, s.cache[Key(b, sql)]) else FoundNothing(sql))
    case Count =>
      Move(s, c, Finished(s.calls[c].sql, Success(s.calls[c].cached), true)).(hits := s.hits + 1)
    case Translate =>
      var sql := s.calls[c].sql;
      Move(s, c, match TranslateSQL(b, sql)
                 case Success(text) => Translated(sql, text)
                 case Failure(e) => Finished(sql, Failure(e), false))
    case Store =>
      var sql, text := s.calls[c].sql, s.calls[c].text;
      Move(s, c, Finished(sql, Success(text), false)).(cache := s.cache[Key(b, sql) := text], misses := s.misses + 1)
  }

  datatype Event = Event(call: Call, action: Action)

  /** The system after a schedule; a step that is not enabled is not taken. */
  ghost function After<S>(b: Backend<S>, s: System, events: seq<Event>): System {
    if events == [] then s
    else
      var t := After(b, s, events[..|events| - 1]);
      var e := events[|events| - 1];
      if Enabled(t, e.call, e.action) then Step(b, t, e.call, e.action) else t
  }

  // ----- what holds in every reachable state

  ghost predicate HitDone(st: Stage) { st.Finished? && st.result.Success? && st.hit }

  ghost predicate MissDone(st: Stage) { st.Finished? && st.result.Success? && !st.hit }

  ghost function Hits(s: System): set<Call> { set c | c in s.calls && HitDone(s.calls[c]) }

  ghost function Misses(s: System): set<Call> { set c | c in s.calls && MissDone(s.calls[c]) }

  /** A stage says nothing but the direct translation of its statement. */
  ghost predicate Truthful<S>(b: Backend<S>, st: Stage) {
    match st
    case Called(_) => true
    case FoundNothing(_) => true
    case FoundEntry(sql, cached) => TranslateSQL(b, sql) == Success(cached)
    case Translated(sql, text) => TranslateSQL(b, sql) == Success(text)
    case Finished(sql, result, _) => result == TranslateSQL(b, sql)
  }

  ghost predicate Entries<S>(b: Backend<S>, s: System) {
    forall k :: k in s.cache <==> exists c :: c in Misses(s) && k == Key(b, s.calls[c].sql)
  }

  ghost predicate EntriesTrue<S>(b: Backend<S>, s: System) {
    forall sql: string {:trigger Key(b, sql)} :: Key(b, sql) in s.cache ==> TranslateSQL(b, sql) == Success(s.cache[Key(b, sql)])
  }

  ghost predicate Invariant<S>(b: Backend<S>, s: System) {
    && (forall c :: c in s.calls ==> Truthful(b, s.calls[c]))
    && EntriesTrue(b, s) && Entries(b, s)
    && s.hits == |Hits(s)| && s.misses == |Misses(s)|
  }

  lemma MoveCounts(s: System, c: Call, st: Stage)
    requires c in s.calls ==> !s.calls[c].Finished?
    ensures Hits(Move(s, c, st)) == Hits(s) + (if HitDone(st) then {c} else {}) && c !in Hits(s)
    ensures Misses(Move(s, c, st)) == Misses(s) + (if MissDone(st) then {c} else {}) && c !in Misses(s)
  {
  }

  lemma MoveSizes(s: System, c: Call, st: Stage)
    requires c in s.calls ==> !s.calls[c].Finished?
    ensures |Hits(Move(s, c, st))| == |Hits(s)| + if HitDone(st) then 1 else 0
    ensures |Misses(Move(s, c, st))| == |Misses(s)| + if MissDone(st) then 1 else 0
  {
    MoveCounts(s, c, st);
    OneMore(Hits(s), c);
    OneMore(Misses(s), c);
  }

  lemma OneMore(s: set<Call>, c: Call)
    requires c !in s
    ensures |s + {c}| == |s| + 1 && s + {} == s
  {
  }

  lemma StepKeepsEntries<S>(b: Backend<S>, s: System, c: Call, a: Action)
    requires Entries(b, s) && Enabled(s, c, a)
    ensures Entries(b, Step(b, s, c, a))
  {
    var t := Step(b, s, c, a);
    MoveCounts(s, c, t.calls[c]);
    forall k ensures k in t.cache <==> exists d :: d in Misses(t) && k == Key(b, t.calls[d].sql) {
      if k in s.cache {
        var d :| d in Misses(s) && k == Key(b, s.calls[d].sql);
        assert d in Misses(t) && t.calls[d] == s.calls[d];
      } else if a == Store && k == Key(b, s.calls[c].sql) {
        assert c in Misses(t);
      }
    }
  }

  lemma StepKeepsTruth<S>(b: Backend<S>, s: System, c: Call, a: Action)
    requires EntriesTrue(b, s) && Enabled(s, c, a) && forall d :: d in s.calls ==> Truthful(b, s.calls[d])
    ensures EntriesTrue(b, Step(b, s, c, a))
    ensures forall d :: d in Step(b, s, c, a).calls ==> Truthful(b, Step(b, s, c, a).calls[d])
  {
    if a == Store {
      var sql := s.calls[c].sql;
      forall x: string ensures Key(b, x) == Key(b, sql) <==> x == sql { KeyInjective(b, x, sql); }
    }
  }

  lemma StepKeepsCounts<S>(b: Backend<S>, s: System, c: Call, a: Action)
    requires s.hits == |Hits(s)| && s.misses == |Misses(s)| && Enabled(s, c, a)
    ensures Step(b, s, c, a).hits == |Hits(Step(b, s, c, a))| && Step(b, s, c, a).misses == |Misses(Step(b, s, c, a))|
  {
    var t := Step(b, s, c, a);
    MoveSizes(s, c, t.calls[c]);
    SameCalls(t, Move(s, c, t.calls[c]));
  }

  lemma SameCalls(s: System, t: System)
    requires s.calls == t.calls
    ensures Hits(s) == Hits(t) && Misses(s) == Misses(t)
  {
  }

  /** Under every interleaving: each entry and each result is the direct translation, the entries are
      those of the finished misses, and the statistics count the finished successes exactly. */
  lemma {:induction false} EveryRun<S>(b: Backend<S>, events: seq<Event>)
    ensures Invariant(b, After(b, INITIAL, events))
  {
    if events == [] {
      assert Hits(INITIAL) == {} && Misses(INITIAL) == {};
    } else {
      var s, e := After(b, INITIAL, events[..|events| - 1]), events[|events| - 1];
      EveryRun(b, events[..|events| - 1]);
      if Enabled(s, e.call, e.action) {
        StepKeepsEntries(b, s, e.call, e.action);
        StepKeepsTruth(b, s, e.call, e.action);
        StepKeepsCounts(b, s, e.call, e.action);
      }
    }
  }

  /** A finished call returned the direct translation of its statement. */
  lemma ResultsAreDirect<S>(b: Backend<S>, events: seq<Event>, c: Call)
    requires var s := After(b, INITIAL, events); c in s.calls && s.calls[c].Finished?
    ensures var s := After(b, INITIAL, events); s.calls[c].result == TranslateSQL(b, s.calls[c].sql)
  {
    EveryRun(b, events);
  }

  /** Hits and misses together are the finished successful calls, and the cache never holds more
      entries than there were misses. */
  lemma Accounting<S>(b: Backend<S>, events: seq<Event>)
    ensures var s := After(b, INITIAL, events);
      && s.hits + s.misses == |set c | c in s.calls && s.calls[c].Finished? && s.calls[c].result.Success?|
      && |s.cache| <= s.misses
  {
    var s := After(b, INITIAL, events);
    EveryRun(b, events);
    Partition(s);
    KeysBounded(b, s, Misses(s), s.cache.Keys);
  }

  lemma Partition(s: System)
    ensures |Hits(s)| + |Misses(s)| == |set c | c in s.calls && s.calls[c].Finished? && s.calls[c].result.Success?|
  {
    assert Hits(s) !! Misses(s);
    assert (set c | c in s.calls && s.calls[c].Finished? && s.calls[c].result.Success?) == Hits(s) + Misses(s);
  }

  /** No more keys than calls that account for them. */
  lemma {:induction false} KeysBounded<S>(b: Backend<S>, s: System, cs: set<Call>, keys: set<string>)
    requires forall c :: c in cs ==> c in s.calls
    requires forall k :: k in keys ==> exists c :: c in cs && k == Key(b, s.calls[c].sql)
    ensures |keys| <= |cs|
    decreases |cs|
  {
    if keys != {} {
      var k :| k in keys;
      var c :| c in cs && k == Key(b, s.calls[c].sql);
      forall j | j in keys - {k} ensures exists d :: d in cs - {c} && j == Key(b, s.calls[d].sql) {
        var d :| d in cs && j == Key(b, s.calls[d].sql);
        assert d in cs - {c};
      }
      KeysBounded(b, s, cs - {c}, keys - {k});
    }
  }

  // ----- along a run

  /** Entries are never dropped nor changed. */
  lemma {:induction false} EntriesStay<S>(b: Backend<S>, events: seq<Event>, more: seq<Event>, k: string)
    requires k in After(b, INITIAL, events).cache
    ensures k in After(b, INITIAL, events + more).cache
    ensures After(b, INITIAL, events + more).cache[k] == After(b, INITIAL, events).cache[k]
  {
    if more == [] {
      assert events + more == events;
    } else {
      var front, e := more[..|more| - 1], more[|more| - 1];
      assert (events + more)[..|events + more| - 1] == events + front;
      EntriesStay(b, events, front, k);
      EveryRun(b, events + front);
      var s := After(b, INITIAL, events + front);
      if Enabled(s, e.call, e.action) && e.action == Store {
        assert Truthful(b, s.calls[e.call]);
        assert EntriesTrue(b, s);
      }
    }
  }

  /** Once a call for a statement has succeeded, every later lookup of that statement is a hit. */
  lemma LaterLookupsHit<S>(b: Backend<S>, events: seq<Event>, more: seq<Event>, c: Call, d: Call)
    requires var s := After(b, INITIAL, events); c in s.calls && MissDone(s.calls[c])
    requires var t := After(b, INITIAL, events + more);
      Enabled(t, d, Look) && t.calls[d].sql == After(b, INITIAL, events).calls[c].sql
    ensures var t := After(b, INITIAL, events + more);
      Step(b, t, d, Look).calls[d] == FoundEntry(t.calls[d].sql, After(b, INITIAL, events).calls[c].result.value)
  {
    var s, t := After(b, INITIAL, events), After(b, INITIAL, events + more);
    EveryRun(b, events);
    var k := Key(b, s.calls[c].sql);
    assert c in Misses(s);
    assert k in s.cache;
    EntriesStay(b, events, more, k);
    assert Truthful(b, s.calls[c]);
  }

  // ----- calls that fail

  ghost predicate Succeeded(s: System, c: Call) { c in s.calls && (HitDone(s.calls[c]) || MissDone(s.calls[c])) }

  /** The schedule without the steps of one call. */
  function Without(events: seq<Event>, c: Call): seq<Event> {
    if events == [] then []
    else Without(events[..|events| - 1], c) + if events[|events| - 1].call == c then [] else [events[|events| - 1]]
  }

  function Forgetting(s: System, c: Call): System { s.(calls := s.calls - {c}) }

  lemma AfterSnoc<S>(b: Backend<S>, s: System, events: seq<Event>, e: Event)
    ensures var t := After(b, s, events);
      After(b, s, events + [e]) == if Enabled(t, e.call, e.action) then Step(b, t, e.call, e.action) else t
  {
    assert (events + [e])[..|events|] == events;
  }

  /** A step of another call does not see the forgotten one. */
  lemma OtherStep<S>(b: Backend<S>, s: System, c: Call, e: Event)
    requires e.call != c
    ensures Enabled(Forgetting(s, c), e.call, e.action) == Enabled(s, e.call, e.action)
    ensures Enabled(s, e.call, e.action) ==>
      Step(b, Forgetting(s, c), e.call, e.action) == Forgetting(Step(b, s, e.call, e.action), c)
  {
    if Enabled(s, e.call, e.action) {
      var t := Step(b, s, e.call, e.action);
      assert Forgetting(s, c).calls[e.call := t.calls[e.call]] == Forgetting(t, c).calls;
    }
  }

  /** A step of a call that has not succeeded after it changes nothing but that call. */
  lemma OwnStep<S>(b: Backend<S>, s: System, c: Call, a: Action)
    requires Enabled(s, c, a) && !Succeeded(Step(b, s, c, a), c)
    ensures Forgetting(Step(b, s, c, a), c) == Forgetting(s, c)
  {
    assert Forgetting(Step(b, s, c, a), c).calls == Forgetting(s, c).calls;
  }

  /** A call that fails leaves no trace, whatever happens around it: with its steps taken out, every run ends
      with the same cache, the same statistics and the same other calls. */
  lemma {:induction false} FailuresLeaveNoTrace<S>(b: Backend<S>, events: seq<Event>, c: Call)
    requires !Succeeded(After(b, INITIAL, events), c)
    ensures After(b, INITIAL, Without(events, c)) == Forgetting(After(b, INITIAL, events), c)
  {
    if events == [] {
      assert Forgetting(INITIAL, c) == INITIAL;
    } else {
      var front, e := events[..|events| - 1], events[|events| - 1];
      var s := After(b, INITIAL, front);
      FailuresLeaveNoTrace(b, front, c);
      if e.call == c {
        assert Without(events, c) == Without(front, c);
        if Enabled(s, c, e.action) { OwnStep(b, s, c, e.action); }
      } else {
        AfterSnoc(b, INITIAL, Without(front, c), e);
        OtherStep(b, s, c, e);
      }
    }
  }
}
