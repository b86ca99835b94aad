/** When a check is admitted, told from the times of the checks of its own key. */
module RateObserved {
  import opened Prelude
  import opened RateLimit

  /** The times at which `key` was checked. */
  function TimesOf(ops: seq<Op>, key: string): seq<int> {
    if ops == [] then []
    else
      var op := ops[|ops| - 1];
      TimesOf(ops[..|ops| - 1], key) + if op.Check? && op.key == key then [op.now] else []
  }

  /** When the window of the last of these checks opened: a check after the end of the window before it
      opens the next one. */
  function Opening(times: seq<int>, w: nat): Option<int> {
    if times == [] then None
    else
      var s, t := Opening(times[..|times| - 1], w), times[|times| - 1];
      if s.None? || t > s.value + w then Some(t) else s
  }

  /** Which check of its window the last one is, from 1 on. */
  function Rank(times: seq<int>, w: nat): nat {
    if times == [] then 0
    else
      var s, t := Opening(times[..|times| - 1], w), times[|times| - 1];
      if s.None? || t > s.value + w then 1 else Rank(times[..|times| - 1], w) + 1
  }

  lemma OneMoreCheck(times: seq<int>, t: int, w: nat)
    ensures var s := Opening(times, w);
            var opens := s.None? || t > s.value + w;
            && Opening(times + [t], w) == (if opens then Some(t) else s)
            && Rank(times + [t], w) == if opens then 1 else Rank(times, w) + 1
  {
    assert (times + [t])[..|times|] == times;
  }

  /** The entry of a key holds its window, or is gone because the window is over. */
  ghost predicate Remembers(l: Limits, entry: Option<Entry>, times: seq<int>, clock: int) {
    match entry
    case Some(e) =>
      && Opening(times, l.windowMs).Some? && e == Entry(Rank(times, l.windowMs), Opening(times, l.windowMs).value + l.windowMs)
    case None => Opening(times, l.windowMs).Some? ==> Opening(times, l.windowMs).value + l.windowMs < clock
  }

  function Seen(store: Store, key: string): Option<Entry> {
    if key in store then Some(store[key]) else None
  }

  lemma RemembersCheck(l: Limits, store: Store, key: string, times: seq<int>, clock: int, now: int)
    requires Remembers(l, Seen(store, key), times, clock) && clock <= now && |store| < 50_000
    ensures Remembers(l, Seen(After(l, store, Check(key, now)), key), times + [now], now)
    ensures Checked(l, store, key, now).1
       <==> Rank(times + [now], l.windowMs) == 1 || Rank(times + [now], l.windowMs) <= l.maxRequests
    ensures Rank(times + [now], l.windowMs) == 1 ==> Checked(l, store, key, now).1
  {
    OneMoreCheck(times, now, l.windowMs);
    RankIsPositive(times, l.windowMs);
  }

  lemma {:induction false} RankIsPositive(times: seq<int>, w: nat)
    ensures times != [] ==> Rank(times, w) >= 1
    ensures Opening(times, w).None? <==> times == []
  {
    if times != [] {
      RankIsPositive(times[..|times| - 1], w);
    }
  }

  lemma RemembersOther(l: Limits, store: Store, key: string, times: seq<int>, clock: int, op: Op)
    requires Remembers(l, Seen(store, key), times, clock) && clock <= op.now && !(op.Check? && op.key == key)
    ensures Remembers(l, Seen(After(l, store, op), key), times, op.now)
  {
  }

  lemma MonotoneInit(ops: seq<Op>)
    requires ops != [] && Monotone(ops)
    ensures Monotone(ops[..|ops| - 1])
    ensures |ops| > 1 ==> ops[|ops| - 2].now <= ops[|ops| - 1].now
  {
  }

  /** The time of the last operation, or `first` before any. */
  function LastTime(ops: seq<Op>, first: int): int {
    if ops == [] then first else ops[|ops| - 1].now
  }

  lemma {:induction false} EveryRunRemembers(l: Limits, ops: seq<Op>, key: string, first: int)
    requires Monotone(ops) && HasRoom(l, ops)
    ensures Remembers(l, Seen(StoreAfter(l, ops), key), TimesOf(ops, key), LastTime(ops, first))
  {
    if ops != [] {
      var n := |ops| - 1;
      var init, op := ops[..n], ops[n];
      MonotoneInit(ops);
      HasRoomInit(l, ops);
      EveryRunRemembers(l, init, key, op.now);
      if op.Check? && op.key == key {
        RemembersCheck(l, StoreAfter(l, init), key, TimesOf(init, key), LastTime(init, op.now), op.now);
      } else {
        RemembersOther(l, StoreAfter(l, init), key, TimesOf(init, key), LastTime(init, op.now), op);
        assert TimesOf(ops, key) == TimesOf(init, key);
      }
    }
  }

  /** With room in the store, and whatever is swept or checked for other keys in between: a check is
      admitted exactly when it opens a window of its key or is among the first maxRequests checks of the
      window it falls in. */
  lemma AdmittedExactly(l: Limits, ops: seq<Op>, key: string, now: int)
    requires Monotone(ops) && HasRoom(l, ops) && |StoreAfter(l, ops)| < 50_000 && (ops != [] ==> ops[|ops| - 1].now <= now)
    ensures Checked(l, StoreAfter(l, ops), key, now).1
       <==> var rank := Rank(TimesOf(ops, key) + [now], l.windowMs);
            rank == 1 || rank <= l.maxRequests
  {
    EveryRunRemembers(l, ops, key, now);
    RemembersCheck(l, StoreAfter(l, ops), key, TimesOf(ops, key), LastTime(ops, now), now);
  }
}
