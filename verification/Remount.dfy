/** A terminal that is set up again: its effect is torn down, its queues go, and the key exchange runs
    anew with counters at 0. While the agent's half of the exchange is the same, so are the keys. */
module Remount {
  import opened Prelude
  import opened Crypto
  import opened Channel

  /** The cleanup: no session, no queue. */
  const Unmounted := BrowserSend(None, 0, [], None)

  /** The key exchange: the same key again, and a counter that starts over. */
  function Established(s: BrowserSend, key: Key): BrowserSend {
    s.(key := Some(key), counter := 0, inflight := None)
  }

  /** `sealed` is every message given to the cipher under `key`; `since[i]` is how many there were when
      the key exchange before message `i` ran, and `epoch` the same for the latest one. */
  datatype Mounts = Mounts(key: Key, send: BrowserSend, sealed: seq<Envelope>, since: seq<nat>, epoch: nat)

  function MountInit(key: Key): Mounts {
    Mounts(key, Unmounted, [], [], 0)
  }

  datatype MountAction = Unmount | Establish | Queue(p: Plain) | StartEncrypt | EndEncrypt

  function Next(st: Mounts, a: MountAction): Mounts {
    match a
    case Unmount => st.(send := Unmounted)
    case Establish => st.(send := Established(st.send, st.key), epoch := |st.sealed|)
    case Queue(p) => st.(send := QueueSend(st.send, p))
    case StartEncrypt =>
      var send := BeginSend(st.send);
      if st.send.inflight.None? && send.inflight.Some? then
        st.(send := send, since := st.since + [st.epoch],
            sealed := st.sealed + [Seal(st.key, DirectionB2A, send.inflight.value.counter, send.inflight.value.p)])
      else st.(send := send)
    case EndEncrypt => st.(send := FinishSend(st.send).0)
  }

  ghost predicate MountRun(states: seq<Mounts>, actions: seq<MountAction>) {
    && |states| == |actions| + 1 && (exists key :: states[0] == MountInit(key))
    && forall i :: 0 <= i < |actions| ==> states[i + 1] == Next(states[i], actions[i])
  }

  // ---------------------------------------------------------------- what every run keeps

  function InFlight(s: BrowserSend): nat { if s.inflight.Some? then 1 else 0 }

  /** The counter is the number of messages since the latest exchange. */
  ghost predicate CounterOk(st: Mounts) {
    && |st.since| == |st.sealed| && st.epoch <= |st.sealed|
    && (st.send.key.None? ==> st.send.inflight.None?)
    && (st.send.key.Some? ==>
          && st.send.key.value == st.key && st.epoch + InFlight(st.send) <= |st.sealed|
          && st.send.counter == CounterOfSendBrowser(|st.sealed| - st.epoch - InFlight(st.send))
          && (st.send.inflight.Some? ==> st.send.inflight.value.counter == st.send.counter))
  }

  ghost predicate SealedAtOwn(st: Mounts, i: nat)
    requires i < |st.sealed| && i < |st.since|
  {
    && st.since[i] <= i && st.since[i] <= st.epoch && st.since[st.since[i]] == st.since[i]
    && st.sealed[i].data.Packet?
    && st.sealed[i].data.nonce == Nonce(DirectionB2A, CounterOfSendBrowser(i - st.since[i]))
  }

  ghost predicate EpochsOk(st: Mounts) {
    && |st.since| == |st.sealed|
    && (forall i: nat :: i < |st.sealed| ==> SealedAtOwn(st, i))
    && (st.epoch < |st.sealed| ==> st.since[st.epoch] == st.epoch)
  }

  lemma CounterStep(st: Mounts, a: MountAction)
    requires CounterOk(st)
    ensures CounterOk(Next(st, a))
  {
  }

  lemma OwnStays(st: Mounts, after: Mounts, i: nat)
    requires |st.since| == |st.sealed| && |after.since| == |after.sealed| && i < |st.sealed| && SealedAtOwn(st, i)
    requires st.sealed <= after.sealed && st.since <= after.since && st.epoch <= after.epoch
    ensures SealedAtOwn(after, i)
  {
    assert after.sealed[i] == st.sealed[i] && after.since[i] == st.since[i];
    assert after.since[st.since[i]] == st.since[st.since[i]];
  }

  lemma EpochsStep(st: Mounts, a: MountAction)
    requires CounterOk(st) && EpochsOk(st)
    ensures EpochsOk(Next(st, a))
  {
    var after := Next(st, a);
    forall i: nat | i < |st.sealed| ensures SealedAtOwn(after, i) {
      OwnStays(st, after, i);
    }
    if |after.sealed| > |st.sealed| {
      assert SealedAtOwn(after, |st.sealed|);
    }
  }

  lemma {:induction false} MountRunInv(states: seq<Mounts>, actions: seq<MountAction>, n: nat)
    requires MountRun(states, actions) && n < |states|
    ensures CounterOk(states[n]) && EpochsOk(states[n])
  {
    if n > 0 {
      MountRunInv(states, actions, n - 1);
      CounterStep(states[n - 1], actions[n - 1]);
      EpochsStep(states[n - 1], actions[n - 1]);
    }
  }

  // ---------------------------------------------------------------- the exact condition

  lemma OneEpoch(sealed: seq<Envelope>, since: seq<nat>)
    requires |since| == |sealed| && forall i :: 0 <= i < |sealed| ==> since[i] == 0 && sealed[i].data.Packet?
    requires forall i: nat :: i < |sealed| ==> sealed[i].data.nonce == Nonce(DirectionB2A, CounterOfSendBrowser(i))
    ensures NoncesDiffer(sealed) <==> |sealed| <= TwoTo53 + 1
  {
    NoncesFollow(sealed, NonceOfSendBrowser);
    NoncesDistinctExactly(|sealed|);
  }

  /** A second exchange followed by a message uses the first nonce again. */
  lemma SecondEpochRepeats(st: Mounts, i: nat)
    requires EpochsOk(st) && i < |st.sealed| && st.since[i] > 0
    requires forall k :: 0 <= k < |st.sealed| ==> st.sealed[k].data.Packet?
    ensures !NoncesDiffer(st.sealed)
  {
    assert SealedAtOwn(st, i);
    var first: nat := 0;
    var e := st.since[i];
    assert SealedAtOwn(st, first) && SealedAtOwn(st, e);
    assert st.sealed[first].data.nonce == st.sealed[e].data.nonce;
  }

  lemma DifferExactly(st: Mounts)
    requires EpochsOk(st)
    ensures forall k :: 0 <= k < |st.sealed| ==> st.sealed[k].data.Packet?
    ensures NoncesDiffer(st.sealed) <==> |st.sealed| <= TwoTo53 + 1 && forall i :: 0 <= i < |st.since| ==> st.since[i] == 0
  {
    forall k: nat | k < |st.sealed| ensures st.sealed[k].data.Packet? { assert SealedAtOwn(st, k); }
    if forall i :: 0 <= i < |st.since| ==> st.since[i] == 0 {
      forall k: nat | k < |st.sealed| ensures st.sealed[k].data.nonce == Nonce(DirectionB2A, CounterOfSendBrowser(k)) {
        assert SealedAtOwn(st, k);
      }
      OneEpoch(st.sealed, st.since);
    } else {
      var i: nat :| i < |st.since| && st.since[i] != 0;
      SecondEpochRepeats(st, i);
    }
  }

  lemma {:induction false} SealedGrows(states: seq<Mounts>, actions: seq<MountAction>, m: nat, n: nat)
    requires MountRun(states, actions) && m <= n < |states|
    ensures states[m].sealed <= states[n].sealed
    decreases n
  {
    if m < n {
      SealedGrows(states, actions, m, n - 1);
    }
  }

  /** Every exchange among the first `n` steps ran before anything was sealed. */
  ghost predicate AllEarly(states: seq<Mounts>, actions: seq<MountAction>, n: nat)
    requires n <= |actions| < |states|
  {
    forall i :: 0 <= i < n && actions[i].Establish? ==> states[i].sealed == []
  }

  lemma {:induction false} EpochExactly(states: seq<Mounts>, actions: seq<MountAction>, n: nat)
    requires MountRun(states, actions) && n < |states|
    ensures states[n].epoch == 0 <==> AllEarly(states, actions, n)
  {
    if n > 0 {
      EpochExactly(states, actions, n - 1);
      if actions[n - 1].Establish? {
        forall i | 0 <= i < n && actions[i].Establish? ensures |states[i].sealed| <= |states[n - 1].sealed| {
          SealedGrows(states, actions, i, n - 1);
        }
      }
    }
  }

  /** Nothing is sealed any more after an exchange that found something sealed. */
  ghost predicate NoneAfterRemount(states: seq<Mounts>, actions: seq<MountAction>, n: nat)
    requires n <= |actions| < |states|
  {
    forall i :: 0 <= i < n && actions[i].Establish? && states[i].sealed != [] ==> states[n].sealed == states[i].sealed
  }

  ghost predicate AllZero(since: seq<nat>) {
    forall i :: 0 <= i < |since| ==> since[i] == 0
  }

  lemma SealingStep(states: seq<Mounts>, actions: seq<MountAction>, n: nat)
    requires MountRun(states, actions) && 0 < n < |states| && |states[n].sealed| > |states[n - 1].sealed|
    ensures AllZero(states[n].since) <==> AllEarly(states, actions, n)
    ensures NoneAfterRemount(states, actions, n) <==> AllEarly(states, actions, n)
  {
    var before := states[n - 1];
    MountRunInv(states, actions, n - 1);
    EpochExactly(states, actions, n - 1);
    assert states[n].since == before.since + [before.epoch] && actions[n - 1].StartEncrypt?;
    assert AllEarly(states, actions, n) <==> AllEarly(states, actions, n - 1);
    if before.epoch == 0 {
      forall i: nat | i < |before.since| ensures before.since[i] == 0 { assert SealedAtOwn(before, i); }
    } else {
      assert states[n].since[|before.since|] != 0;
    }
    forall i | 0 <= i < n && actions[i].Establish? ensures |states[i].sealed| < |states[n].sealed| {
      SealedGrows(states, actions, i, n - 1);
    }
  }

  lemma {:induction false} ZeroExactly(states: seq<Mounts>, actions: seq<MountAction>, n: nat)
    requires MountRun(states, actions) && n < |states|
    ensures AllZero(states[n].since) <==> NoneAfterRemount(states, actions, n)
  {
    if n > 0 {
      if |states[n].sealed| > |states[n - 1].sealed| {
        SealingStep(states, actions, n);
      } else {
        ZeroExactly(states, actions, n - 1);
        assert states[n].since == states[n - 1].since && states[n].sealed == states[n - 1].sealed;
      }
    }
  }

  /** Over any run of a terminal that is torn down and set up again with the same keys: no nonce is used
      twice exactly when nothing is sealed any more after a key exchange that found something sealed,
      and no more than 2^53 + 1 messages are sealed. */
  lemma NonceRepeatsExactly(states: seq<Mounts>, actions: seq<MountAction>, n: nat)
    requires MountRun(states, actions) && n < |states|
    ensures forall k :: 0 <= k < |states[n].sealed| ==> states[n].sealed[k].data.Packet?
    ensures NoncesDiffer(states[n].sealed)
       <==> |states[n].sealed| <= TwoTo53 + 1 && NoneAfterRemount(states, actions, n)
  {
    MountRunInv(states, actions, n);
    DifferExactly(states[n]);
    ZeroExactly(states, actions, n);
  }

  lemma OneMoreMount(states: seq<Mounts>, actions: seq<MountAction>, a: MountAction)
    returns (states': seq<Mounts>, actions': seq<MountAction>)
    requires MountRun(states, actions)
    ensures MountRun(states', actions')
    ensures states' == states + [Next(states[|actions|], a)] && actions' == actions + [a]
  {
    states', actions' := states + [Next(states[|actions|], a)], actions + [a];
    assert states'[0] == states[0];
    forall i | 0 <= i < |actions'| ensures states'[i + 1] == Next(states'[i], actions'[i]) {
      if i < |actions| {
        assert states'[i] == states[i] && states'[i + 1] == states[i + 1] && actions'[i] == actions[i];
      }
    }
  }

  lemma OneSent(key: Key, p: Plain) returns (states: seq<Mounts>, actions: seq<MountAction>)
    ensures MountRun(states, actions) && |actions| == 4
    ensures states[4] == Mounts(key, BrowserSend(Some(key), 1, [], None), [Seal(key, DirectionB2A, 0, p)], [0], 0)
  {
    states, actions := [MountInit(key)], [];
    states, actions := OneMoreMount(states, actions, MountAction.Establish);
    states, actions := OneMoreMount(states, actions, MountAction.Queue(p));
    states, actions := OneMoreMount(states, actions, MountAction.StartEncrypt);
    states, actions := OneMoreMount(states, actions, MountAction.EndEncrypt);
  }

  /** A run that uses a nonce twice: one message, the terminal set up again, another message. */
  lemma RemountRepeats(key: Key, p: Plain, q: Plain) returns (states: seq<Mounts>, actions: seq<MountAction>)
    ensures MountRun(states, actions) && !NoneAfterRemount(states, actions, |actions|)
    ensures states[|actions|].sealed == [Seal(key, DirectionB2A, 0, p), Seal(key, DirectionB2A, 0, q)]
  {
    states, actions := OneSent(key, p);
    states, actions := OneMoreMount(states, actions, MountAction.Unmount);
    states, actions := OneMoreMount(states, actions, MountAction.Establish);
    states, actions := OneMoreMount(states, actions, MountAction.Queue(q));
    states, actions := OneMoreMount(states, actions, MountAction.StartEncrypt);
    assert actions[5].Establish? && states[5].sealed == [Seal(key, DirectionB2A, 0, p)];
  }
}
