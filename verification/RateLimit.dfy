/** The fixed-window rate limiter: what it admits over whole runs, with sweeps anywhere. */
module RateLimit {
  import opened Prelude

  const MAX_STORE_SIZE := 50_000

  datatype Entry = Entry(count: nat, resetAt: int)
  type Store = map<string, Entry>

  datatype Limits = Limits(windowMs: nat, maxRequests: int)

  function Checked(l: Limits, store: Store, key: string, now: int): (Store, bool) {
    if key !in store || now > store[key].resetAt then
      if |store| >= MAX_STORE_SIZE then (store, false)
      else (store[key := Entry(1, now + l.windowMs)], true)
    else
      var e := Entry(store[key].count + 1, store[key].resetAt);
      (store[key := e], e.count <= l.maxRequests)
  }

  function Swept(store: Store, now: int): Store {
    map k | k in store && now <= store[k].resetAt :: store[k]
  }

  class RateLimitStore {
    const limits: Limits
    var store: Store

    constructor (limits: Limits)
      ensures this.limits == limits && store == map[]
    {
      this.limits := limits;
      store := map[];
    }

    method Check(key: string, now: int) returns (ok: bool)
      modifies this
      ensures (store, ok) == Checked(limits, old(store), key, now)
      ensures (key !in old(store) || now > old(store)[key].resetAt) && |old(store)| >= 50_000 ==> !ok && store == old(store)
    {
      if key !in store || now > store[key].resetAt {
        if |store| >= MAX_STORE_SIZE {
          return false;
        }
        store := store[key := Entry(1, now + limits.windowMs)];
        return true;
      }
      store := store[key := store[key].(count := store[key].count + 1)];
      return store[key].count <= limits.maxRequests;
    }

    method Sweep(now: int)
      modifies this
      ensures store == Swept(old(store), now)
      ensures forall k :: k in store <==> k in old(store) && old(store)[k].resetAt >= now
    {
      ghost var was := store;
      var todo := store.Keys;
      while todo != {}
        invariant todo <= store.Keys <= was.Keys
        invariant forall k :: k in store ==> store[k] == was[k]
        invariant forall k :: k in was && k !in todo ==> (k in store <==> now <= was[k].resetAt)
        decreases |todo|
      {
        var key :| key in todo;
        todo := todo - {key};
        if now > store[key].resetAt {
          store := store - {key};
        }
      }
    }
  }

  // ---------------------------------------------------------------- runs

  datatype Op = Check(key: string, now: int) | Sweep(now: int)

  function After(l: Limits, store: Store, op: Op): Store {
    match op
    case Check(key, now) => Checked(l, store, key, now).0
    case Sweep(now) => Swept(store, now)
  }

  function StoreAfter(l: Limits, ops: seq<Op>): Store {
    if ops == [] then map[] else After(l, StoreAfter(l, ops[..|ops| - 1]), ops[|ops| - 1])
  }

  ghost predicate Monotone(ops: seq<Op>) {
    forall i, j :: 0 <= i < j < |ops| ==> ops[i].now <= ops[j].now
  }

  lemma StepKeepsSize(l: Limits, store: Store, op: Op)
    requires |store| <= MAX_STORE_SIZE
    ensures |After(l, store, op)| <= MAX_STORE_SIZE
  {
    match op {
      case Check(key, now) =>
        var after := Checked(l, store, key, now).0;
        if key in store {
          assert after.Keys == store.Keys;
          assert |after.Keys| == |store.Keys|;
        }
      case Sweep(now) => SweptIsSmaller(store, now);
    }
  }

  lemma SweptIsSmaller(store: Store, now: int)
    ensures |Swept(store, now)| <= |store|
  {
    var kept := Swept(store, now).Keys;
    assert kept <= store.Keys;
    assert store.Keys == kept + (store.Keys - kept);
  }

  /** The store never exceeds its cap. */
  lemma {:induction false} StoreStaysCapped(l: Limits, ops: seq<Op>)
    ensures |StoreAfter(l, ops)| <= MAX_STORE_SIZE
  {
    if ops != [] {
      StoreStaysCapped(l, ops[..|ops| - 1]);
      StepKeepsSize(l, StoreAfter(l, ops[..|ops| - 1]), ops[|ops| - 1]);
    }
  }

  // ---------------------------------------------------------------- admissions of one key

  /** One admission: when, and when its window opened. */
  datatype Admission = Admission(time: int, start: int)

  /** What a check of `key` adds to its admissions. */
  function Admitted(l: Limits, store: Store, key: string, now: int): seq<Admission> {
    var (after, ok) := Checked(l, store, key, now);
    if ok && key in after then [Admission(now, after[key].resetAt - l.windowMs)] else []
  }

  /** The admissions of `key` in a run, in order. */
  function Log(l: Limits, ops: seq<Op>, key: string): seq<Admission> {
    if ops == [] then []
    else
      var init, op := ops[..|ops| - 1], ops[|ops| - 1];
      Log(l, init, key) + if op.Check? && op.key == key then Admitted(l, StoreAfter(l, init), key, op.now) else []
  }

  function Cap(l: Limits): nat { if l.maxRequests < 1 then 1 else l.maxRequests }

  function CountIn(log: seq<Admission>, from: int, to: int): nat {
    if log == [] then 0
    else CountIn(log[..|log| - 1], from, to) + if from <= log[|log| - 1].time <= to then 1 else 0
  }

  function CountStart(log: seq<Admission>, start: int): nat {
    if log == [] then 0
    else CountStart(log[..|log| - 1], start) + if log[|log| - 1].start == start then 1 else 0
  }

  /** Admissions lie inside their windows, windows never touch, every window opens with an admission
      and holds at most the cap. */
  ghost predicate Windows(log: seq<Admission>, w: nat, cap: nat) {
    && (forall a :: a in log ==> a.start <= a.time <= a.start + w && Admission(a.start, a.start) in log)
    && (forall a, b :: a in log && b in log ==> Apart(a.start, b.start, w))
    && (forall s :: CountStart(log, s) <= cap)
  }

  predicate Apart(s: int, t: int, w: nat) { s == t || s + w < t || t + w < s }

  function Lookup(store: Store, key: string): Option<Entry> {
    if key in store then Some(store[key]) else None
  }

  /** How the store entry of a key and its admissions up to time `clock` fit together. */
  ghost predicate FitsAt(l: Limits, log: seq<Admission>, entry: Option<Entry>, clock: int) {
    && Windows(log, l.windowMs, Cap(l))
    && (forall a :: a in log ==> a.time <= clock)
    && (entry.Some? ==> FitsEntry(l, log, entry.value))
    && (entry.None? ==> AllPassed(l, log, clock))
  }

  /** Every window in the log is over at `clock`. */
  ghost predicate AllPassed(l: Limits, log: seq<Admission>, clock: int) {
    forall a :: a in log ==> a.start + l.windowMs < clock
  }

  ghost predicate FitsEntry(l: Limits, log: seq<Admission>, e: Entry) {
    var s := e.resetAt - l.windowMs;
    && CountStart(log, s) <= e.count
    && Admission(s, s) in log
    && forall a :: a in log ==> a.start == s || a.start + l.windowMs < s
  }

  function Clock(ops: seq<Op>): int {
    if ops == [] then 0 else ops[|ops| - 1].now
  }

  ghost predicate Fits(l: Limits, ops: seq<Op>, key: string) {
    FitsAt(l, Log(l, ops, key), Lookup(StoreAfter(l, ops), key), Clock(ops))
  }

  lemma {:induction false} CountStartNone(log: seq<Admission>, s: int)
    requires forall a :: a in log ==> a.start != s
    ensures CountStart(log, s) == 0
  {
    if log != [] {
      CountStartNone(log[..|log| - 1], s);
    }
  }

  lemma CountStartSnoc(log: seq<Admission>, a: Admission, s: int)
    ensures CountStart(log + [a], s) == CountStart(log, s) + if a.start == s then 1 else 0
  {
    assert (log + [a])[..|log|] == log;
  }

  lemma NewWindow(log: seq<Admission>, w: nat, cap: nat, now: int)
    requires Windows(log, w, cap) && cap >= 1
    requires forall a :: a in log ==> a.start + w < now
    ensures Windows(log + [Admission(now, now)], w, cap) && CountStart(log + [Admission(now, now)], now) == 1
  {
    var a := Admission(now, now);
    CountStartNone(log, now);
    forall s ensures CountStart(log + [a], s) <= cap { CountStartSnoc(log, a, s); }
    CountStartSnoc(log, a, now);
  }

  lemma SameWindow(log: seq<Admission>, w: nat, cap: nat, now: int, s: int)
    requires Windows(log, w, cap) && s <= now <= s + w && CountStart(log, s) < cap && Admission(s, s) in log
    ensures Windows(log + [Admission(now, s)], w, cap) && CountStart(log + [Admission(now, s)], s) == CountStart(log, s) + 1
  {
    var a := Admission(now, s);
    forall t ensures CountStart(log + [a], t) <= cap { CountStartSnoc(log, a, t); }
    CountStartSnoc(log, a, s);
  }

  lemma OpensWindow(l: Limits, log: seq<Admission>, now: int)
    requires Windows(log, l.windowMs, Cap(l)) && AllPassed(l, log, now)
    ensures Windows(log + [Admission(now, now)], l.windowMs, Cap(l))
    ensures FitsEntry(l, log + [Admission(now, now)], Entry(1, now + l.windowMs))
  {
    NewWindow(log, l.windowMs, Cap(l), now);
    var log' := log + [Admission(now, now)];
    assert Admission(now, now) == log'[|log|];
  }

  lemma CountsInWindow(l: Limits, log: seq<Admission>, e: Entry, now: int)
    requires Windows(log, l.windowMs, Cap(l)) && FitsEntry(l, log, e)
    requires e.resetAt - l.windowMs <= now <= e.resetAt && e.count + 1 <= l.maxRequests
    ensures Windows(log + [Admission(now, e.resetAt - l.windowMs)], l.windowMs, Cap(l))
    ensures FitsEntry(l, log + [Admission(now, e.resetAt - l.windowMs)], Entry(e.count + 1, e.resetAt))
  {
    SameWindow(log, l.windowMs, Cap(l), now, e.resetAt - l.windowMs);
  }

  lemma RefusedFits(l: Limits, log: seq<Admission>, entry: Option<Entry>, clock: int, now: int)
    requires FitsAt(l, log, entry, clock) && (log == [] || clock <= now)
    ensures FitsAt(l, log, entry, now)
  {
  }

  lemma PassedBy(l: Limits, log: seq<Admission>, entry: Option<Entry>, clock: int, now: int)
    requires FitsAt(l, log, entry, clock) && (log == [] || clock <= now)
    requires entry.Some? ==> now > entry.value.resetAt
    ensures AllPassed(l, log, now)
  {
  }

  lemma OpenedFits(l: Limits, log: seq<Admission>, entry: Option<Entry>, clock: int, now: int)
    requires FitsAt(l, log, entry, clock) && (log == [] || clock <= now)
    requires entry.Some? ==> now > entry.value.resetAt
    ensures FitsAt(l, log + [Admission(now, now)], Some(Entry(1, now + l.windowMs)), now)
  {
    PassedBy(l, log, entry, clock, now);
    OpensWindow(l, log, now);
  }

  lemma CountedFits(l: Limits, log: seq<Admission>, e: Entry, clock: int, now: int)
    requires FitsAt(l, log, Some(e), clock) && clock <= now <= e.resetAt && e.count + 1 <= l.maxRequests
    ensures FitsAt(l, log + [Admission(now, e.resetAt - l.windowMs)], Some(Entry(e.count + 1, e.resetAt)), now)
  {
    CountsInWindow(l, log, e, now);
  }

  lemma OverFits(l: Limits, log: seq<Admission>, e: Entry, clock: int, now: int)
    requires FitsAt(l, log, Some(e), clock) && clock <= now
    ensures FitsAt(l, log, Some(Entry(e.count + 1, e.resetAt)), now)
  {
  }

  /** The part of `check` that concerns one key; `full` says whether the store is at its cap. */
  function Decide(l: Limits, entry: Option<Entry>, full: bool, now: int): (Option<Entry>, bool) {
    if entry.None? || now > entry.value.resetAt then
      if full then (entry, false) else (Some(Entry(1, now + l.windowMs)), true)
    else (Some(Entry(entry.value.count + 1, entry.value.resetAt)), entry.value.count + 1 <= l.maxRequests)
  }

  function Extended(l: Limits, log: seq<Admission>, after: Option<Entry>, ok: bool, now: int): seq<Admission> {
    if ok && after.Some? then log + [Admission(now, after.value.resetAt - l.windowMs)] else log
  }

  lemma CheckIsDecide(l: Limits, store: Store, key: string, now: int)
    ensures Lookup(Checked(l, store, key, now).0, key) == Decide(l, Lookup(store, key), |store| >= MAX_STORE_SIZE, now).0
    ensures Checked(l, store, key, now).1 == Decide(l, Lookup(store, key), |store| >= MAX_STORE_SIZE, now).1
    ensures Checked(l, store, key, now).1 ==> key in Checked(l, store, key, now).0
  {
  }

  /** No window is open: the request opens one, or the store is full. */
  lemma ClosedFits(l: Limits, log: seq<Admission>, entry: Option<Entry>, full: bool, clock: int, now: int,
                   log': seq<Admission>, after: Option<Entry>)
    requires FitsAt(l, log, entry, clock) && (log == [] || clock <= now)
    requires entry.None? || now > entry.value.resetAt
    requires (after, log') == if full then (entry, log) else (Some(Entry(1, now + l.windowMs)), log + [Admission(now, now)])
    ensures FitsAt(l, log', after, now)
  {
    if full {
      RefusedFits(l, log, entry, clock, now);
    } else {
      OpenedFits(l, log, entry, clock, now);
    }
  }

  /** A request that opens a window, counts in the open one, or is refused. */
  lemma DecideFits(l: Limits, log: seq<Admission>, entry: Option<Entry>, full: bool, clock: int, now: int,
                   log': seq<Admission>, after: Option<Entry>)
    requires FitsAt(l, log, entry, clock) && (log == [] || clock <= now)
    requires after == Decide(l, entry, full, now).0
    requires log' == Extended(l, log, after, Decide(l, entry, full, now).1, now)
    ensures FitsAt(l, log', after, now)
  {
    match entry {
      case None => ClosedFits(l, log, entry, full, clock, now, log', after);
      case Some(e) =>
        if now > e.resetAt {
          ClosedFits(l, log, entry, full, clock, now, log', after);
        } else {
          EntryIsLogged(l, log, e);
          assert entry == Some(e) && after == Some(Entry(e.count + 1, e.resetAt));
          if e.count + 1 <= l.maxRequests {
            CountedFits(l, log, e, clock, now);
            assert log' == log + [Admission(now, e.resetAt - l.windowMs)];
          } else {
            OverFits(l, log, e, clock, now);
          }
        }
    }
  }

  lemma EntryIsLogged(l: Limits, log: seq<Admission>, e: Entry)
    requires FitsEntry(l, log, e)
    ensures log != []
  {
  }

  /** Sweeps and other keys only let time pass, or drop an entry whose window is over. */
  lemma OtherOpFits(l: Limits, log: seq<Admission>, store: Store, key: string, clock: int, op: Op)
    requires FitsAt(l, log, Lookup(store, key), clock) && (log == [] || clock <= op.now) && (op.Check? ==> op.key != key)
    ensures FitsAt(l, log, Lookup(After(l, store, op), key), op.now)
  {
    var entry := Lookup(store, key);
    if op.Sweep? && entry.Some? && op.now > entry.value.resetAt {
      PassedBy(l, log, entry, clock, op.now);
    } else {
      RefusedFits(l, log, entry, clock, op.now);
    }
  }

  lemma LogSnoc(l: Limits, ops: seq<Op>, op: Op, key: string)
    ensures StoreAfter(l, ops + [op]) == After(l, StoreAfter(l, ops), op)
    ensures Log(l, ops + [op], key)
         == Log(l, ops, key) + if op.Check? && op.key == key then Admitted(l, StoreAfter(l, ops), key, op.now) else []
  {
    assert (ops + [op])[..|ops|] == ops;
  }

  lemma AdmittedIsDecide(l: Limits, log: seq<Admission>, store: Store, key: string, now: int)
    ensures var decided := Decide(l, Lookup(store, key), |store| >= MAX_STORE_SIZE, now);
            log + Admitted(l, store, key, now) == Extended(l, log, decided.0, decided.1, now)
  {
    CheckIsDecide(l, store, key, now);
    assert log + [] == log;
  }

  /** The log and the entry of a key after a check of it, as `Decide` gives them. */
  lemma CheckedLog(l: Limits, ops: seq<Op>, key: string, now: int)
    ensures var decided := Decide(l, Lookup(StoreAfter(l, ops), key), |StoreAfter(l, ops)| >= MAX_STORE_SIZE, now);
            && Lookup(StoreAfter(l, ops + [Check(key, now)]), key) == decided.0
            && Log(l, ops + [Check(key, now)], key) == Extended(l, Log(l, ops, key), decided.0, decided.1, now)
  {
    LogSnoc(l, ops, Check(key, now), key);
    CheckIsDecide(l, StoreAfter(l, ops), key, now);
    AdmittedIsDecide(l, Log(l, ops, key), StoreAfter(l, ops), key, now);
  }

  lemma OtherLog(l: Limits, ops: seq<Op>, key: string, op: Op)
    requires op.Check? ==> op.key != key
    ensures StoreAfter(l, ops + [op]) == After(l, StoreAfter(l, ops), op) && Log(l, ops + [op], key) == Log(l, ops, key)
  {
    LogSnoc(l, ops, op, key);
    assert Log(l, ops, key) + [] == Log(l, ops, key);
  }

  lemma StepFits(l: Limits, ops: seq<Op>, key: string, op: Op, log': seq<Admission>, after: Option<Entry>)
    requires FitsAt(l, Log(l, ops, key), Lookup(StoreAfter(l, ops), key), Clock(ops))
    requires Log(l, ops, key) == [] || Clock(ops) <= op.now
    requires log' == Log(l, ops + [op], key) && after == Lookup(StoreAfter(l, ops + [op]), key)
    ensures FitsAt(l, log', after, op.now)
  {
    var log, store := Log(l, ops, key), StoreAfter(l, ops);
    if op.Check? && op.key == key {
      CheckedLog(l, ops, key, op.now);
      DecideFits(l, log, Lookup(store, key), |store| >= MAX_STORE_SIZE, Clock(ops), op.now, log', after);
    } else {
      OtherLog(l, ops, key, op);
      OtherOpFits(l, log, store, key, Clock(ops), op);
    }
  }

  lemma {:induction false} EveryRunFits(l: Limits, ops: seq<Op>, key: string)
    requires Monotone(ops)
    ensures Fits(l, ops, key)
  {
    if ops == [] {
      assert Log(l, ops, key) == [];
    } else {
      var init, op := ops[..|ops| - 1], ops[|ops| - 1];
      EveryRunFits(l, init, key);
      assert init + [op] == ops;
      assert init == [] ==> Log(l, init, key) == [];
      StepFits(l, init, key, op, Log(l, ops, key), Lookup(StoreAfter(l, ops), key));
    }
  }

  // ---------------------------------------------------------------- counting in an interval

  /** Everything in the interval opened in one of two windows. */
  lemma {:induction false} CountByStarts(log: seq<Admission>, from: int, to: int, s: int, t: int)
    requires forall a :: a in log && from <= a.time <= to ==> a.start == s || a.start == t
    ensures CountIn(log, from, to) <= CountStart(log, s) + if s == t then 0 else CountStart(log, t)
  {
    if log != [] {
      CountByStarts(log[..|log| - 1], from, to, s, t);
    }
  }

  /** The same, when the admission that opened window `s` lies before the interval. */
  lemma {:induction false} CountWithoutOpening(log: seq<Admission>, from: int, to: int, s: int, t: int)
    requires forall a :: a in log && from <= a.time <= to ==> a.start == s || a.start == t
    requires s != t && s < from && Admission(s, s) in log
    ensures CountIn(log, from, to) + 1 <= CountStart(log, s) + CountStart(log, t)
  {
    var init, last := log[..|log| - 1], log[|log| - 1];
    if last == Admission(s, s) {
      CountByStarts(init, from, to, s, t);
    } else {
      CountWithoutOpening(init, from, to, s, t);
    }
  }

  lemma {:induction false} SomethingIn(log: seq<Admission>, from: int, to: int)
    ensures CountIn(log, from, to) > 0 ==> exists a :: a in log && from <= a.time <= to
  {
    if log != [] {
      SomethingIn(log[..|log| - 1], from, to);
    }
  }

  /** Two windows are met by the interval: the earlier one opened before it. */
  lemma TwoWindows(log: seq<Admission>, w: nat, cap: nat, from: int, first: Admission, second: Admission)
    requires Windows(log, w, cap) && first in log && second in log && first.start < second.start
    requires from <= first.time && second.time <= from + w
    ensures CountIn(log, from, from + w) <= 2 * cap - 1
  {
    assert Apart(first.start, second.start, w);
    forall c | c in log && from <= c.time <= from + w ensures c.start == first.start || c.start == second.start {
      assert Apart(c.start, first.start, w) && Apart(c.start, second.start, w);
    }
    CountWithoutOpening(log, from, from + w, first.start, second.start);
    assert CountStart(log, first.start) <= cap && CountStart(log, second.start) <= cap;
  }

  lemma IntervalBound(log: seq<Admission>, w: nat, cap: nat, from: int)
    requires Windows(log, w, cap) && cap >= 1
    ensures CountIn(log, from, from + w) <= 2 * cap - 1
  {
    var to := from + w;
    SomethingIn(log, from, to);
    if CountIn(log, from, to) > 0 {
      var a :| a in log && from <= a.time <= to;
      if b :| b in log && from <= b.time <= to && b.start != a.start {
        TwoWindows(log, w, cap, from, if a.start < b.start then a else b, if a.start < b.start then b else a);
      } else {
        CountByStarts(log, from, to, a.start, a.start);
        assert CountStart(log, a.start) <= cap;
      }
    }
  }

  /** Over any run with nondecreasing times and sweeps anywhere, every closed interval of length
      windowMs holds at most 2 * max(1, maxRequests) - 1 admissions of one key. */
  lemma AdmissionsInAnyInterval(l: Limits, ops: seq<Op>, key: string, from: int)
    requires Monotone(ops)
    ensures CountIn(Log(l, ops, key), from, from + l.windowMs) <= 2 * Cap(l) - 1
  {
    EveryRunFits(l, ops, key);
    IntervalBound(Log(l, ops, key), l.windowMs, Cap(l), from);
  }

  // ---------------------------------------------------------------- the bound is met

  lemma CountInSnoc(log: seq<Admission>, a: Admission, from: int, to: int)
    ensures CountIn(log + [a], from, to) == CountIn(log, from, to) + if from <= a.time <= to then 1 else 0
  {
    assert (log + [a])[..|log|] == log;
  }

  /** A run that leaves one entry in the store, and has `count` admissions in the interval looked at. */
  ghost predicate Reached(l: Limits, ops: seq<Op>, key: string, e: Entry, count: nat) {
    && ops != [] && Monotone(ops) && StoreAfter(l, ops) == map[key := e]
    && CountIn(Log(l, ops, key), l.windowMs, 2 * l.windowMs) == count
  }

  lemma StoreOfOne(key: string, e: Entry)
    ensures |map[key := e]| == 1
  {
    assert map[key := e].Keys == {key};
  }

  lemma MonotoneSnoc(ops: seq<Op>, op: Op)
    requires Monotone(ops) && (ops == [] || Clock(ops) <= op.now)
    ensures Monotone(ops + [op]) && Clock(ops + [op]) == op.now
  {
    assert forall i :: 0 <= i < |ops| ==> ops[i].now <= Clock(ops);
  }

  /** One more check, admitted inside the interval. */
  lemma AdmitOne(l: Limits, ops: seq<Op>, key: string, e: Entry, count: nat, now: int, e': Entry) returns (more: seq<Op>)
    requires Reached(l, ops, key, e, count) && Clock(ops) <= now && l.windowMs <= now <= 2 * l.windowMs
    requires Checked(l, map[key := e], key, now) == (map[key := e'], true)
    ensures Reached(l, more, key, e', count + 1) && Clock(more) == now
  {
    more := ops + [Check(key, now)];
    LogSnoc(l, ops, Check(key, now), key);
    MonotoneSnoc(ops, Check(key, now));
    CountInSnoc(Log(l, ops, key), Admission(now, e'.resetAt - l.windowMs), l.windowMs, 2 * l.windowMs);
  }

  lemma CountedCheck(l: Limits, key: string, e: Entry, now: int)
    requires now <= e.resetAt && e.count < l.maxRequests
    ensures Checked(l, map[key := e], key, now) == (map[key := Entry(e.count + 1, e.resetAt)], true)
  {
    assert map[key := e][key := Entry(e.count + 1, e.resetAt)] == map[key := Entry(e.count + 1, e.resetAt)];
  }

  lemma OpeningCheck(l: Limits, key: string, e: Entry, now: int)
    requires e.resetAt < now
    ensures Checked(l, map[key := e], key, now) == (map[key := Entry(1, now + l.windowMs)], true)
  {
    StoreOfOne(key, e);
    assert map[key := e][key := Entry(1, now + l.windowMs)] == map[key := Entry(1, now + l.windowMs)];
  }

  lemma AdmitCounted(l: Limits, ops: seq<Op>, key: string, e: Entry, count: nat, now: int) returns (more: seq<Op>)
    requires Reached(l, ops, key, e, count) && Clock(ops) <= now && l.windowMs <= now <= 2 * l.windowMs
    requires now <= e.resetAt && e.count < l.maxRequests
    ensures Reached(l, more, key, Entry(e.count + 1, e.resetAt), count + 1) && Clock(more) == now
  {
    CountedCheck(l, key, e, now);
    more := AdmitOne(l, ops, key, e, count, now, Entry(e.count + 1, e.resetAt));
  }

  /** `n` more checks at one time, all counted in the open window. */
  lemma {:induction false} AdmitMany(l: Limits, ops: seq<Op>, key: string, e: Entry, count: nat, now: int, n: nat)
    returns (more: seq<Op>)
    requires Reached(l, ops, key, e, count) && Clock(ops) <= now && l.windowMs <= now <= 2 * l.windowMs
    requires now <= e.resetAt && (n == 0 || e.count + n <= l.maxRequests)
    ensures Reached(l, more, key, Entry(e.count + n, e.resetAt), count + n) && Clock(more) <= now
  {
    if n == 0 {
      more := ops;
    } else {
      var before := AdmitMany(l, ops, key, e, count, now, n - 1);
      more := AdmitCounted(l, before, key, Entry(e.count + n - 1, e.resetAt), count + n - 1, now);
    }
  }

  lemma FirstRequest(l: Limits, key: string) returns (ops: seq<Op>)
    requires l.windowMs >= 1
    ensures Reached(l, ops, key, Entry(1, l.windowMs), 0) && Clock(ops) == 0
  {
    ops := [Check(key, 0)];
    assert [] + [Check(key, 0)] == ops;
    assert StoreAfter(l, []) == map[] && Log(l, [], key) == [];
    LogSnoc(l, [], Check(key, 0), key);
    CountInSnoc([], Admission(0, 0), l.windowMs, 2 * l.windowMs);
  }

  /** No smaller bound holds: one request at 0, all but one of the rest of the cap at the very end of
      its window, and a full cap just after it, is a run with nondecreasing times that reaches it. */
  lemma BoundIsMet(l: Limits, key: string) returns (ops: seq<Op>)
    requires l.windowMs >= 1
    ensures Monotone(ops) && CountIn(Log(l, ops, key), l.windowMs, 2 * l.windowMs) == 2 * Cap(l) - 1
  {
    var w, cap := l.windowMs, Cap(l);
    ops := FirstRequest(l, key);
    ops := AdmitMany(l, ops, key, Entry(1, w), 0, w, cap - 1);
    OpeningCheck(l, key, Entry(cap, w), w + 1);
    ops := AdmitOne(l, ops, key, Entry(cap, w), cap - 1, w + 1, Entry(1, 2 * w + 1));
    ops := AdmitMany(l, ops, key, Entry(1, 2 * w + 1), cap, w + 1, cap - 1);
  }

  // ---------------------------------------------------------------- what a sweep can change

  /** The run with its sweeps left out. */
  function Unswept(ops: seq<Op>): seq<Op> {
    if ops == [] then []
    else Unswept(ops[..|ops| - 1]) + if ops[|ops| - 1].Check? then [ops[|ops| - 1]] else []
  }

  /** What each check of the run answered. */
  function Decisions(l: Limits, ops: seq<Op>): seq<bool> {
    if ops == [] then []
    else
      var init, op := ops[..|ops| - 1], ops[|ops| - 1];
      Decisions(l, init) + if op.Check? then [Checked(l, StoreAfter(l, init), op.key, op.now).1] else []
  }

  /** A swept store lacks only entries whose window is over. */
  ghost predicate Matches(swept: Store, plain: Store, clock: int) {
    && swept.Keys <= plain.Keys
    && (forall k :: k in swept ==> swept[k] == plain[k])
    && (forall k :: k in plain && k !in swept ==> plain[k].resetAt < clock)
  }

  lemma SmallerStore(a: Store, b: Store)
    requires a.Keys <= b.Keys
    ensures |a| <= |b|
  {
    assert b.Keys == a.Keys + (b.Keys - a.Keys);
  }

  lemma CheckMatches(l: Limits, swept: Store, plain: Store, clock: int, key: string, now: int)
    requires Matches(swept, plain, clock) && clock <= now && |plain| < MAX_STORE_SIZE
    ensures Matches(Checked(l, swept, key, now).0, Checked(l, plain, key, now).0, now)
    ensures Checked(l, swept, key, now).1 == Checked(l, plain, key, now).1
  {
    SmallerStore(swept, plain);
  }

  lemma StoreGrows(l: Limits, store: Store, key: string, now: int)
    ensures |store| <= |Checked(l, store, key, now).0|
  {
    SmallerStore(store, Checked(l, store, key, now).0);
  }

  /** `less` is `ops` with some of its sweeps left out. */
  ghost predicate LeavesOutSweeps(less: seq<Op>, ops: seq<Op>)
    decreases |ops|
  {
    if ops == [] then less == []
    else
      var init, op := ops[..|ops| - 1], ops[|ops| - 1];
      || (less != [] && less[|less| - 1] == op && LeavesOutSweeps(less[..|less| - 1], init))
      || (op.Sweep? && LeavesOutSweeps(less, init))
  }

  /** Before each of its checks the run has room in the store. */
  ghost predicate HasRoom(l: Limits, ops: seq<Op>) {
    forall i :: 0 <= i < |ops| && ops[i].Check? ==> |StoreAfter(l, ops[..i])| < MAX_STORE_SIZE
  }

  lemma HasRoomInit(l: Limits, ops: seq<Op>)
    requires HasRoom(l, ops) && ops != []
    ensures HasRoom(l, ops[..|ops| - 1])
    ensures ops[|ops| - 1].Check? ==> |StoreAfter(l, ops[..|ops| - 1])| < MAX_STORE_SIZE
  {
    var n := |ops| - 1;
    forall i | 0 <= i < n && ops[..n][i].Check? ensures |StoreAfter(l, ops[..n][..i])| < MAX_STORE_SIZE {
      assert ops[..n][..i] == ops[..i];
    }
  }

  lemma SweepMatches(swept: Store, plain: Store, clock: int, now: int)
    requires Matches(swept, plain, clock) && clock <= now
    ensures Matches(Swept(swept, now), plain, now) && Matches(Swept(swept, now), Swept(plain, now), now)
  {
  }

  /** One operation of the whole run, kept or left out, against the thinned one. */
  lemma StepMatches(l: Limits, swept: Store, plain: Store, clock: int, op: Op)
    requires Matches(swept, plain, clock) && clock <= op.now && (op.Check? ==> |plain| < MAX_STORE_SIZE)
    ensures Matches(After(l, swept, op), After(l, plain, op), op.now)
    ensures op.Sweep? ==> Matches(After(l, swept, op), plain, op.now)
    ensures op.Check? ==> Checked(l, swept, op.key, op.now).1 == Checked(l, plain, op.key, op.now).1
  {
    if op.Check? {
      CheckMatches(l, swept, plain, clock, op.key, op.now);
    } else {
      SweepMatches(swept, plain, clock, op.now);
    }
  }

  function ClockOr(ops: seq<Op>, now: int): int {
    if ops == [] then now else Clock(ops)
  }

  lemma {:induction false} ThinnedRunMatches(l: Limits, ops: seq<Op>, less: seq<Op>, now: int)
    requires Monotone(ops) && LeavesOutSweeps(less, ops) && HasRoom(l, less)
    ensures Matches(StoreAfter(l, ops), StoreAfter(l, less), ClockOr(ops, now))
    ensures Decisions(l, ops) == Decisions(l, less)
    decreases |ops|
  {
    if ops != [] {
      var init, op := ops[..|ops| - 1], ops[|ops| - 1];
      if less != [] && less[|less| - 1] == op && LeavesOutSweeps(less[..|less| - 1], init) {
        HasRoomInit(l, less);
        ThinnedRunMatches(l, init, less[..|less| - 1], op.now);
        StepMatches(l, StoreAfter(l, init), StoreAfter(l, less[..|less| - 1]), ClockOr(init, op.now), op);
      } else {
        ThinnedRunMatches(l, init, less, op.now);
        StepMatches(l, StoreAfter(l, init), StoreAfter(l, less), ClockOr(init, op.now), op);
      }
    }
  }

  /** Leaving out any of the sweeps changes no decision, as long as the run without them has room in the
      store before each check. */
  lemma SweepsAreInvisible(l: Limits, ops: seq<Op>, less: seq<Op>)
    requires Monotone(ops) && LeavesOutSweeps(less, ops) && HasRoom(l, less)
    ensures Decisions(l, ops) == Decisions(l, less)
  {
    ThinnedRunMatches(l, ops, less, 0);
  }

  lemma {:induction false} UnsweptLeavesOut(ops: seq<Op>)
    ensures LeavesOutSweeps(Unswept(ops), ops) && forall i :: 0 <= i < |Unswept(ops)| ==> Unswept(ops)[i].Check?
  {
    if ops != [] {
      UnsweptLeavesOut(ops[..|ops| - 1]);
      var less, init := Unswept(ops), Unswept(ops[..|ops| - 1]);
      if ops[|ops| - 1].Check? {
        assert less[..|less| - 1] == init;
      } else {
        assert less == init;
      }
    }
  }

  lemma {:induction false} ChecksOnlyGrow(l: Limits, ops: seq<Op>, i: nat)
    requires i <= |ops| && forall k :: 0 <= k < |ops| ==> ops[k].Check?
    ensures |StoreAfter(l, ops[..i])| <= |StoreAfter(l, ops)|
  {
    if i < |ops| {
      var n := |ops| - 1;
      ChecksOnlyGrow(l, ops[..n], i);
      assert ops[..n][..i] == ops[..i];
      StoreGrows(l, StoreAfter(l, ops[..n]), ops[n].key, ops[n].now);
    } else {
      assert ops[..i] == ops;
    }
  }

  /** In particular, while the entries fit below the cap, no sweep at all is ever missed. */
  lemma NoSweepIsMissed(l: Limits, ops: seq<Op>)
    requires Monotone(ops) && |StoreAfter(l, Unswept(ops))| < MAX_STORE_SIZE
    ensures Decisions(l, ops) == Decisions(l, Unswept(ops))
  {
    UnsweptLeavesOut(ops);
    var less := Unswept(ops);
    forall i | 0 <= i < |less| && less[i].Check? ensures |StoreAfter(l, less[..i])| < MAX_STORE_SIZE {
      ChecksOnlyGrow(l, less, i);
    }
    SweepsAreInvisible(l, ops, less);
  }

  /** At the cap a sweep matters exactly when it makes room for a key that has no open window. */
  lemma SweepChangesExactly(l: Limits, store: Store, key: string, at: int, now: int)
    requires at <= now && |store| <= MAX_STORE_SIZE
    ensures Checked(l, Swept(store, at), key, now).1 != Checked(l, store, key, now).1
       <==> |store| == MAX_STORE_SIZE && |Swept(store, at)| < MAX_STORE_SIZE && (key !in store || now > store[key].resetAt)
  {
    SweptIsSmaller(store, at);
  }
}
