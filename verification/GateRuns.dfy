/**
 Whole runs of a gate with a state file: presentations, interrupted writes,
 restarts and power losses, in any order, with any clock and any nonce cap.
*/
module GateRuns {
  import opened Wrappers
  import opened GateState

  /**
   The running gate and its disk. `file` is what a reader sees now; `durable`
   holds every content a power loss now could leave; `admitted` is the log of
   admissions over all process lifetimes.
  */
  datatype System = System(mem: Memory, file: File, ghost durable: set<File>, admitted: seq<Envelope>)

  ghost predicate Loads(codec: Codec, file: File) {
    Load(codec, file).Ok?
  }

  ghost predicate Started(cfg: Config, s: System) {
    Loads(cfg.codec, s.file) && s.mem == Boot(cfg, Load(cfg.codec, s.file).value)
  }

  /** A first start over a state file (or none) that any power loss leaves readable. */
  ghost predicate Init(cfg: Config, s: System) {
    && s.file in s.durable
    && (forall f :: f in s.durable ==> Loads(cfg.codec, f))
    && Started(cfg, s)
    && s.admitted == []
  }

  ghost predicate Refuses(cfg: Config, s: System, s': System, e: Envelope, now: real) {
    Decide(cfg, s.mem, e, now).Rejected? && s' == s
  }

  ghost predicate Admits(cfg: Config, s: System, s': System, e: Envelope, now: real) {
    && Decide(cfg, s.mem, e, now).Accepted?
    && s' == System(Commit(cfg, s.mem, e, now), Saved(cfg.codec, e), {Saved(cfg.codec, e)}, s.admitted + [e])
  }

  /** What the disk may hold at any point of writing `saved` over (file, durable). */
  ghost predicate Within(file: File, durable: set<File>, saved: File, file': File, durable': set<File>) {
    && (file' == file || file' == saved)
    && file' in durable'
    && durable' <= durable + {saved}
  }

  /** The state write failed or is still under way: nothing is admitted. */
  ghost predicate Interrupted(cfg: Config, s: System, s': System, e: Envelope, now: real) {
    && Decide(cfg, s.mem, e, now).Accepted?
    && Within(s.file, s.durable, Saved(cfg.codec, e), s'.file, s'.durable)
    && s'.mem == s.mem && s'.admitted == s.admitted
  }

  /** The process ends and a new one starts; the disk is untouched. */
  ghost predicate Restarts(cfg: Config, s: System, s': System) {
    s'.file == s.file && s'.durable == s.durable && s'.admitted == s.admitted && Started(cfg, s')
  }

  /** Power is lost, some durable content survives, and a new process starts. */
  ghost predicate LosesPower(cfg: Config, s: System, s': System) {
    s'.file in s.durable && s'.durable == {s'.file} && s'.admitted == s.admitted && Started(cfg, s')
  }

  ghost predicate Next(cfg: Config, s: System, s': System) {
    || (exists e, now :: Refuses(cfg, s, s', e, now))
    || (exists e, now :: Admits(cfg, s, s', e, now))
    || (exists e, now :: Interrupted(cfg, s, s', e, now))
    || Restarts(cfg, s, s')
    || LosesPower(cfg, s, s')
  }

  ghost predicate IsRun(cfg: Config, run: seq<System>) {
    && |run| > 0
    && Init(cfg, run[0])
    && forall i :: 0 <= i < |run| - 1 ==> Next(cfg, run[i], run[i + 1])
  }

  // ------------------------------------------------------------ the invariant

  /** The watermark is a full one at or past the envelope's stamp. */
  predicate Covers(w: Option<Watermark>, e: Envelope) {
    && w.Some? && w.value.issuedAt.Some?
    && (e.body.issuedAt < w.value.issuedAt.value
        || (e.body.issuedAt == w.value.issuedAt.value && e.body.frameId <= w.value.frameId))
  }

  ghost predicate Increasing(admitted: seq<Envelope>) {
    forall i, j :: 0 <= i < j < |admitted| ==> Later(admitted[j], admitted[i])
  }

  ghost predicate FileCovers(codec: Codec, f: File, admitted: seq<Envelope>) {
    Loads(codec, f) && forall e :: e in admitted ==> Covers(Load(codec, f).value, e)
  }

  ghost predicate Inv(cfg: Config, s: System) {
    && s.file in s.durable
    && (forall f :: f in s.durable ==> FileCovers(cfg.codec, f, s.admitted))
    && (forall e :: e in s.admitted ==> Covers(s.mem.last, e))
    && Increasing(s.admitted)
  }

  /** Past a covering watermark means past the envelope it covers. */
  lemma AdvancingIsLater(last: Option<Watermark>, e: Envelope, admitted: seq<Envelope>)
    requires Advances(last, e)
    requires forall a :: a in admitted ==> Covers(last, a)
    ensures forall a :: a in admitted ==> Later(e, a)
  {}

  lemma SavedCovers(cfg: Config, s: System, e: Envelope)
    requires Faithful(cfg.codec) && Inv(cfg, s) && Advances(s.mem.last, e)
    ensures FileCovers(cfg.codec, Saved(cfg.codec, e), s.admitted + [e])
  {
    LoadSaved(cfg.codec, e);
    AdvancingIsLater(s.mem.last, e, s.admitted);
  }

  lemma InvNext(cfg: Config, s: System, s': System)
    requires Faithful(cfg.codec) && Inv(cfg, s) && Next(cfg, s, s')
    ensures Inv(cfg, s')
    ensures s.admitted <= s'.admitted
  {
    if e, now :| Admits(cfg, s, s', e, now) {
      SavedCovers(cfg, s, e);
      AdvancingIsLater(s.mem.last, e, s.admitted);
    } else if e, now :| Interrupted(cfg, s, s', e, now) {
      SavedCovers(cfg, s, e);
      forall f | f in s'.durable ensures FileCovers(cfg.codec, f, s'.admitted) {
        if f !in s.durable {
          assert f == Saved(cfg.codec, e);
        }
      }
    }
  }

  lemma {:induction false} InvRun(cfg: Config, run: seq<System>, k: nat)
    requires Faithful(cfg.codec) && IsRun(cfg, run) && k < |run|
    ensures Inv(cfg, run[k])
    decreases k
  {
    if k > 0 {
      InvRun(cfg, run, k - 1);
      assert Next(cfg, run[k - 1], run[k - 1 + 1]);
      InvNext(cfg, run[k - 1], run[k]);
    }
  }

  // ------------------------------------------------------------ who gets in

  /** Signed by a known key, and of the epoch the gate was told to expect, if any. */
  ghost predicate Entitled(cfg: Config, e: Envelope) {
    && e.body.keyId in cfg.keyring && cfg.signatureMatches(cfg.keyring[e.body.keyId], e)
    && (cfg.expectedEpoch == None || cfg.expectedEpoch == Some(e.body.observerEpoch))
  }

  ghost predicate AllEntitled(cfg: Config, s: System) {
    && (cfg.expectedEpoch.Some? ==> s.mem.epoch == cfg.expectedEpoch)
    && forall e :: e in s.admitted ==> Entitled(cfg, e)
  }

  lemma EntitledNext(cfg: Config, s: System, s': System)
    requires AllEntitled(cfg, s) && Next(cfg, s, s')
    ensures AllEntitled(cfg, s')
  {
    if e, now :| Admits(cfg, s, s', e, now) {
      AcceptedExactlyWhen(cfg, s.mem, e, now);
    }
  }

  /** Over every run, whatever is admitted is signed by a known key, and carries the
      expected epoch when the gate was given one. */
  lemma {:induction false} AdmittedAreEntitled(cfg: Config, run: seq<System>, k: nat, e: Envelope)
    requires IsRun(cfg, run) && k < |run| && e in run[k].admitted
    ensures e.body.keyId in cfg.keyring && cfg.signatureMatches(cfg.keyring[e.body.keyId], e)
    ensures cfg.expectedEpoch.Some? ==> e.body.observerEpoch == cfg.expectedEpoch.value
  {
    for i := 0 to k
      invariant AllEntitled(cfg, run[i])
    {
      assert Next(cfg, run[i], run[i + 1]);
      EntitledNext(cfg, run[i], run[i + 1]);
    }
  }

  /** A step within one process: neither a restart nor a power loss. */
  ghost predicate GoesOn(cfg: Config, s: System, s': System) {
    || (exists e, now :: Refuses(cfg, s, s', e, now))
    || (exists e, now :: Admits(cfg, s, s', e, now))
    || (exists e, now :: Interrupted(cfg, s, s', e, now))
  }

  /** What has been admitted beyond the first n is of the epoch pinned now. */
  ghost predicate PinnedSince(s: System, n: nat) {
    forall i :: n <= i < |s.admitted| ==> s.mem.epoch == Some(s.admitted[i].body.observerEpoch)
  }

  lemma PinnedNext(cfg: Config, s: System, s': System, n: nat)
    requires PinnedSince(s, n) && GoesOn(cfg, s, s')
    ensures PinnedSince(s', n) && (s.mem.epoch.Some? ==> s'.mem.epoch == s.mem.epoch)
  {
    if e, now :| Admits(cfg, s, s', e, now) {
      AcceptedExactlyWhen(cfg, s.mem, e, now);
    }
  }

  /** All envelopes admitted in one process lifetime carry one epoch: the one pinned at
      its start, or else that of the first. */
  lemma {:induction false} OneEpochPerLifetime(cfg: Config, run: seq<System>, j: nat, k: nat, a: nat, b: nat)
    requires j <= k < |run| && (forall i :: j <= i < k ==> GoesOn(cfg, run[i], run[i + 1]))
    requires |run[j].admitted| <= a < |run[k].admitted| && |run[j].admitted| <= b < |run[k].admitted|
    ensures run[k].admitted[a].body.observerEpoch == run[k].admitted[b].body.observerEpoch
    ensures run[j].mem.epoch.Some? ==> run[k].admitted[a].body.observerEpoch == run[j].mem.epoch.value
  {
    PinnedThrough(cfg, run, j, k);
  }

  lemma {:induction false} PinnedThrough(cfg: Config, run: seq<System>, j: nat, k: nat)
    requires j <= k < |run| && (forall i :: j <= i < k ==> GoesOn(cfg, run[i], run[i + 1]))
    ensures PinnedSince(run[k], |run[j].admitted|)
    ensures run[j].mem.epoch.Some? ==> run[k].mem.epoch == run[j].mem.epoch
    decreases k
  {
    if j < k {
      PinnedThrough(cfg, run, j, k - 1);
      assert GoesOn(cfg, run[k - 1], run[k - 1 + 1]);
      PinnedNext(cfg, run[k - 1], run[k], |run[j].admitted|);
    }
  }

  // ------------------------------------------------------------ main results

  /** No envelope is admitted twice, over every run and across restarts. */
  lemma NoEnvelopeAdmittedTwice(cfg: Config, run: seq<System>, i: nat, j: nat)
    requires Faithful(cfg.codec) && IsRun(cfg, run)
    requires i < j < |run[|run| - 1].admitted|
    ensures run[|run| - 1].admitted[i] != run[|run| - 1].admitted[j]
    ensures Later(run[|run| - 1].admitted[j], run[|run| - 1].admitted[i])
  {
    InvRun(cfg, run, |run| - 1);
  }

  /** Whatever a power loss leaves on disk is at or past every admitted stamp. */
  lemma DurableCoversAdmitted(cfg: Config, run: seq<System>, k: nat, f: File, e: Envelope)
    requires Faithful(cfg.codec) && IsRun(cfg, run) && k < |run|
    requires f in run[k].durable && e in run[k].admitted
    ensures Load(cfg.codec, f).Ok? && Covers(Load(cfg.codec, f).value, e)
  {
    InvRun(cfg, run, k);
  }

  /** A start after any crash finds a state file it accepts, never a torn one,
      and the gate it starts refuses every envelope admitted so far. */
  lemma StartAfterAnyCrash(cfg: Config, run: seq<System>, k: nat, f: File)
    requires Faithful(cfg.codec) && IsRun(cfg, run) && k < |run| && f in run[k].durable
    ensures Load(cfg.codec, f).Ok?
    ensures forall e, now :: e in run[k].admitted ==>
      Decide(cfg, Boot(cfg, Load(cfg.codec, f).value), e, now).Rejected?
  {
    InvRun(cfg, run, k);
    assert FileCovers(cfg.codec, f, run[k].admitted);
  }
}
