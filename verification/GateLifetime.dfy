/**
 One process lifetime of the gate: what forgetting nonces costs (nothing), and
 which of its checks refuses an envelope that is shown again.
*/
module GateLifetime {
  import opened Wrappers
  import opened GateState
  import opened GateRuns
  import opened Snapshots

  /** One call of admit; `persists` says whether its state write would succeed. */
  datatype Call = Call(e: Envelope, now: real, persists: bool)

  predicate Admitted(cfg: Config, mem: Memory, c: Call) {
    Decide(cfg, mem, c.e, c.now).Accepted? && c.persists
  }

  /** The memory after a call; an unbounded gate never forgets a nonce. */
  function After(cfg: Config, bounded: bool, mem: Memory, c: Call): Memory {
    if !Admitted(cfg, mem, c) then mem
    else
      var next := Commit(cfg, mem, c.e, c.now);
      if bounded then next else next.(seen := mem.seen + [Seen(c.e.body.nonce, c.e.body.expiresAt)])
  }

  function AfterCalls(cfg: Config, bounded: bool, mem: Memory, calls: seq<Call>): Memory
    decreases |calls|
  {
    if calls == [] then mem else AfterCalls(cfg, bounded, After(cfg, bounded, mem, calls[0]), calls[1..])
  }

  /** Which of the calls return an admitted frame. */
  function Outcomes(cfg: Config, bounded: bool, mem: Memory, calls: seq<Call>): seq<bool>
    decreases |calls|
  {
    if calls == [] then []
    else [Admitted(cfg, mem, calls[0])] + Outcomes(cfg, bounded, After(cfg, bounded, mem, calls[0]), calls[1..])
  }

  /** The observer draws a fresh nonce for every envelope it signs. */
  ghost predicate FreshNonces(cfg: Config, es: set<Envelope>) {
    forall a, b :: a in es && b in es && Authentic(cfg, a) && Authentic(cfg, b) && a.body.nonce == b.body.nonce ==> a == b
  }

  // --------------------------------------------- forgetting nonces is free

  /** The bounded gate differs only in nonces, and every envelope behind a
      nonce either gate remembers is authentic and behind the watermark. */
  ghost predicate Agree(cfg: Config, a: Memory, b: Memory, past: set<Envelope>) {
    && a.epoch == b.epoch && a.last == b.last
    && (forall s :: s in a.seen ==> s in b.seen)
    && (forall s :: s in b.seen ==> exists e :: e in past && e.body.nonce == s.nonce)
    && (forall e :: e in past ==> Authentic(cfg, e) && Covers(a.last, e))
  }

  lemma EvictedKeepsOnlyGiven(seen: seq<Seen>, now: real, cap: nat)
    ensures forall s :: s in Evicted(seen, now, cap) ==> s in seen
  {
    UnexpiredContents(seen, now);
  }

  lemma SameDecision(cfg: Config, a: Memory, b: Memory, past: set<Envelope>, e: Envelope, now: real)
    requires Agree(cfg, a, b, past) && FreshNonces(cfg, past + {e})
    ensures Decide(cfg, a, e, now).Accepted? == Decide(cfg, b, e, now).Accepted?
  {
    if Authentic(cfg, e) && Remembers(b.seen, e.body.nonce) {
      var i :| 0 <= i < |b.seen| && b.seen[i].nonce == e.body.nonce;
      assert b.seen[i] in b.seen;
      var p :| p in past && p.body.nonce == b.seen[i].nonce;
      assert p in past + {e} && e in past + {e};
      assert p == e;
      assert !Advances(a.last, e);
    }
    if Remembers(a.seen, e.body.nonce) {
      var i :| 0 <= i < |a.seen| && a.seen[i].nonce == e.body.nonce;
      assert a.seen[i] in b.seen;
    }
  }

  lemma AgreeAfter(cfg: Config, a: Memory, b: Memory, past: set<Envelope>, c: Call)
    requires Agree(cfg, a, b, past) && Admitted(cfg, a, c) && Admitted(cfg, b, c)
    ensures Agree(cfg, After(cfg, true, a, c), After(cfg, false, b, c), past + {c.e})
  {
    EvictedKeepsOnlyGiven(a.seen + [Seen(c.e.body.nonce, c.e.body.expiresAt)], c.now, cfg.maxNonces);
    var b' := After(cfg, false, b, c);
    forall s | s in b'.seen ensures exists e :: e in past + {c.e} && e.body.nonce == s.nonce {
      if s in b.seen {
        var e :| e in past && e.body.nonce == s.nonce;
        assert e in past + {c.e};
      } else {
        assert s.nonce == c.e.body.nonce && c.e in past + {c.e};
      }
    }
  }

  lemma {:induction false} SameOutcomes(cfg: Config, a: Memory, b: Memory, past: set<Envelope>, calls: seq<Call>)
    requires Agree(cfg, a, b, past)
    requires FreshNonces(cfg, past + set c | c in calls :: c.e)
    ensures Outcomes(cfg, true, a, calls) == Outcomes(cfg, false, b, calls)
    decreases |calls|
  {
    if calls != [] {
      var c := calls[0];
      var rest := set d | d in calls[1..] :: d.e;
      var all := set d | d in calls :: d.e;
      assert c.e in all && past + {c.e} + rest <= past + all;
      SameDecision(cfg, a, b, past, c.e, c.now);
      if Admitted(cfg, a, c) {
        AgreeAfter(cfg, a, b, past, c);
        SameOutcomes(cfg, After(cfg, true, a, c), After(cfg, false, b, c), past + {c.e}, calls[1..]);
      } else {
        SameOutcomes(cfg, a, b, past, calls[1..]);
      }
    }
  }

  /** A gate that forgets nonces, by expiry and by count, admits exactly what a
      gate that remembers every nonce admits. */
  lemma ForgettingNoncesIsFree(cfg: Config, watermark: Option<Watermark>, calls: seq<Call>)
    requires FreshNonces(cfg, set c | c in calls :: c.e)
    ensures Outcomes(cfg, true, Boot(cfg, watermark), calls) == Outcomes(cfg, false, Boot(cfg, watermark), calls)
  {
    assert {} + (set c | c in calls :: c.e) == set c | c in calls :: c.e;
    SameOutcomes(cfg, Boot(cfg, watermark), Boot(cfg, watermark), {}, calls);
  }

  function Plain(issuedAt: Time, expiresAt: Time, nonce: string, frameId: nat): Envelope {
    Envelope(Body("key", "epoch", issuedAt, expiresAt, nonce, frameId, "hash", Scene(1, 1, [])), "signature")
  }

  /** The memory of a freshly started gate after it is shown two envelopes. */
  function AfterTwo(cfg: Config, bounded: bool, c1: Call, c2: Call): Memory {
    After(cfg, bounded, After(cfg, bounded, Boot(cfg, None), c1), c2)
  }

  /** Without fresh nonces the cap does matter: an observer that reuses one has
      its third envelope admitted by the capped gate only. */
  lemma ReusedNonceIsNotFree(cfg: Config)
    requires cfg.maxNonces == 1 && cfg.expectedEpoch.None?
    requires Authentic(cfg, Plain(1.0, 9.0, "n", 1)) && Authentic(cfg, Plain(2.0, 9.0, "m", 2))
    requires Authentic(cfg, Plain(3.0, 9.0, "n", 3))
    ensures
      var c1, c2 := Call(Plain(1.0, 9.0, "n", 1), 1.0, true), Call(Plain(2.0, 9.0, "m", 2), 2.0, true);
      && Decide(cfg, AfterTwo(cfg, true, c1, c2), Plain(3.0, 9.0, "n", 3), 3.0) == Accepted
      && Decide(cfg, AfterTwo(cfg, false, c1, c2), Plain(3.0, 9.0, "n", 3), 3.0) == Rejected(ReplayedNonce)
  {
    var c1, c2 := Call(Plain(1.0, 9.0, "n", 1), 1.0, true), Call(Plain(2.0, 9.0, "m", 2), 2.0, true);
    var s1, s2 := Seen("n", 9.0), Seen("m", 9.0);
    assert Unexpired([], 1.0) == [] && Unexpired([], 2.0) == [];
    assert Unexpired([s1], 1.0) == [s1] && Unexpired([s1], 2.0) == [s1];
    assert [s1, s2][..1] == [s1];
    var b1 := After(cfg, true, Boot(cfg, None), c1);
    assert b1.seen == [s1] by { assert [] + [s1] == [s1]; }
    var b2 := After(cfg, true, b1, c2);
    assert b2.seen == [s2] by { assert [s1] + [s2] == [s1, s2]; }
    var u1 := After(cfg, false, Boot(cfg, None), c1);
    assert u1.seen == [s1] by { assert [] + [s1] == [s1]; }
    var u2 := After(cfg, false, u1, c2);
    assert u2.seen[0].nonce == "n";
  }

  // ------------------------------------ what refuses an envelope shown twice

  lemma RemembersNewest(seen: seq<Seen>, s: Seen, now: real, cap: nat)
    requires cap >= 1 && !Remembers(seen, s.nonce)
    ensures Remembers(Evicted(seen + [s], now, cap), s.nonce) <==> now < s.expiresAt
  {
    assert (seen + [s])[..|seen|] == seen;
    var live := Unexpired(seen + [s], now);
    UnexpiredContents(seen, now);
    if now < s.expiresAt {
      assert live[|live| - 1] == s;
      assert Evicted(seen + [s], now, cap)[|live| - 1 - Excess(live, cap)] == s;
    }
  }

  /** The gate has this envelope behind it. */
  predicate Behind(mem: Memory, e: Envelope) {
    mem.epoch == Some(e.body.observerEpoch) && Covers(mem.last, e)
  }

  lemma {:induction false} StaysBehind(cfg: Config, mem: Memory, e: Envelope, calls: seq<Call>)
    requires Behind(mem, e)
    ensures Behind(AfterCalls(cfg, true, mem, calls), e)
    decreases |calls|
  {
    if calls != [] {
      StaysBehind(cfg, After(cfg, true, mem, calls[0]), e, calls[1..]);
    }
  }

  /** The exact verdict on an envelope that is shown again after it was admitted and
      any number of other calls: within its window the nonce answers while it is
      remembered, and the watermark always. */
  lemma {:induction false} ShownAgain(cfg: Config, mem: Memory, e: Envelope, now: real, calls: seq<Call>, again: real)
    requires Decide(cfg, mem, e, now).Accepted?
    ensures
      var later := AfterCalls(cfg, true, Commit(cfg, mem, e, now), calls);
      Decide(cfg, later, e, again)
      == Rejected(
           if again < e.body.issuedAt then NotYetValid
           else if again > e.body.expiresAt then Expired
           else if Remembers(later.seen, e.body.nonce) then ReplayedNonce
           else StaleFrame)
  {
    StaysBehind(cfg, Commit(cfg, mem, e, now), e, calls);
  }

  /** Every one of the calls that admits an envelope comes before the limit. */
  predicate AdmitsBefore(cfg: Config, mem: Memory, calls: seq<Call>, limit: real)
    decreases |calls|
  {
    calls == []
    || ((Admitted(cfg, mem, calls[0]) ==> calls[0].now < limit)
        && AdmitsBefore(cfg, After(cfg, true, mem, calls[0]), calls[1..], limit))
  }

  /** Nobody but e has its nonce. */
  predicate OwnNonce(e: Envelope, calls: seq<Call>) {
    forall i :: 0 <= i < |calls| && calls[i].e.body.nonce == e.body.nonce ==> calls[i].e == e
  }

  /** The nonce, if remembered at all, is remembered as that of e. */
  predicate OwnEntry(e: Envelope, seen: seq<Seen>) {
    forall i :: 0 <= i < |seen| && seen[i].nonce == e.body.nonce ==> seen[i].expiresAt == e.body.expiresAt
  }

  lemma {:induction false} KeptByAnother(cfg: Config, mem: Memory, e: Envelope, c: Call)
    requires OwnEntry(e, mem.seen) && |mem.seen| < cfg.maxNonces
    requires Admitted(cfg, mem, c) && c.e.body.nonce != e.body.nonce
    ensures
      var seen := After(cfg, true, mem, c).seen;
      && OwnEntry(e, seen) && |seen| <= |mem.seen| + 1
      && (Remembers(seen, e.body.nonce) <==> Remembers(mem.seen, e.body.nonce) && c.now < e.body.expiresAt)
  {
    var all := mem.seen + [Seen(c.e.body.nonce, c.e.body.expiresAt)];
    var seen := After(cfg, true, mem, c).seen;
    UnexpiredContents(all, c.now);
    assert seen == Unexpired(all, c.now);
    assert forall i :: 0 <= i < |seen| ==> seen[i] in all;
    if Remembers(mem.seen, e.body.nonce) && c.now < e.body.expiresAt {
      var i :| 0 <= i < |mem.seen| && mem.seen[i].nonce == e.body.nonce;
      assert all[i] in seen;
    }
    if Remembers(seen, e.body.nonce) {
      var i :| 0 <= i < |seen| && seen[i].nonce == e.body.nonce;
      assert seen[i] in mem.seen;
    }
  }

  lemma {:induction false} RememberedAfter(cfg: Config, mem: Memory, e: Envelope, calls: seq<Call>)
    requires Behind(mem, e) && OwnEntry(e, mem.seen) && OwnNonce(e, calls) && |mem.seen| + |calls| <= cfg.maxNonces
    ensures Remembers(AfterCalls(cfg, true, mem, calls).seen, e.body.nonce)
       <==> Remembers(mem.seen, e.body.nonce) && AdmitsBefore(cfg, mem, calls, e.body.expiresAt)
    decreases |calls|
  {
    if calls != [] {
      if Admitted(cfg, mem, calls[0]) {
        KeptByAnother(cfg, mem, e, calls[0]);
      }
      RememberedAfter(cfg, After(cfg, true, mem, calls[0]), e, calls[1..]);
    }
  }

  /** With room for every nonce and none used twice, an admitted envelope's nonce is
      still remembered exactly when the envelope had time left and so had it at each
      admission since. */
  lemma {:induction false} RememberedWhile(cfg: Config, mem: Memory, e: Envelope, now: real, calls: seq<Call>)
    requires Decide(cfg, mem, e, now).Accepted? && OwnNonce(e, calls) && |mem.seen| + 1 + |calls| <= cfg.maxNonces
    ensures
      var next := Commit(cfg, mem, e, now);
      Remembers(AfterCalls(cfg, true, next, calls).seen, e.body.nonce)
      <==> now < e.body.expiresAt && AdmitsBefore(cfg, next, calls, e.body.expiresAt)
  {
    var next, own := Commit(cfg, mem, e, now), Seen(e.body.nonce, e.body.expiresAt);
    RemembersNewest(mem.seen, own, now, cfg.maxNonces);
    UnexpiredContents(mem.seen + [own], now);
    EvictedKeepsOnlyGiven(mem.seen + [own], now, cfg.maxNonces);
    assert forall i :: 0 <= i < |next.seen| ==> next.seen[i] in mem.seen + [own];
    RememberedAfter(cfg, next, e, calls);
  }

  /** What forgetting an expired nonce costs the nonce check on its own, were there no
      watermark: the envelope gets through exactly within its window. On a clock that
      does not go back that is at one moment, its expiry, when it was forgotten then. */
  lemma {:induction false} ForgottenNonceLetsThrough(cfg: Config, mem: Memory, e: Envelope, now: real, again: real)
    requires Authentic(cfg, e) && (mem.epoch.None? || mem.epoch == Some(e.body.observerEpoch)) && mem.last.None?
    requires Remembers(mem.seen, e.body.nonce) && OwnEntry(e, mem.seen) && e.body.issuedAt <= e.body.expiresAt <= now
    ensures Decide(cfg, mem, e, again).Rejected?
    ensures
      var forgot := mem.(seen := Unexpired(mem.seen, now));
      && (Decide(cfg, forgot, e, again).Accepted? <==> e.body.issuedAt <= again <= e.body.expiresAt)
      && (again >= now ==> (Decide(cfg, forgot, e, again).Accepted? <==> again == now == e.body.expiresAt))
  {
    UnexpiredContents(mem.seen, now);
    var live := Unexpired(mem.seen, now);
    assert forall i :: 0 <= i < |live| ==> live[i] in mem.seen;
    assert !Remembers(live, e.body.nonce);
  }

  /** The input on which forgetting is not free for the nonce check: an envelope
      admitted at its very expiry is forgotten at once, and shown again at that moment
      it is only the watermark that refuses it. */
  lemma {:induction false} ForgottenAtExpiry(cfg: Config)
    requires cfg.maxNonces >= 1 && cfg.expectedEpoch.None? && Authentic(cfg, Plain(1.0, 9.0, "n", 1))
    ensures
      var e := Plain(1.0, 9.0, "n", 1);
      var next := Commit(cfg, Boot(cfg, None), e, 9.0);
      && Decide(cfg, Boot(cfg, None), e, 9.0) == Accepted
      && Decide(cfg, next, e, 9.0) == Rejected(StaleFrame)
      && Decide(cfg, next.(last := None), e, 9.0) == Accepted
  {
    RememberedWhile(cfg, Boot(cfg, None), Plain(1.0, 9.0, "n", 1), 9.0, []);
  }
}
