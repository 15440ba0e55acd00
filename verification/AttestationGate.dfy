/** The replay gate as it runs: its fields, its state file, and the writes in between. */
module AttestationGate {
  import opened Wrappers
  import opened GateState
  import opened GateRuns

  // ------------------------------------------------------------ the disk

  datatype Temp = Temp(bytes: Bytes, synced: bool)

  /** A reader's view of the state file, and what a power loss could leave of it. */
  datatype Moment = Moment(file: File, durable: set<File>)

  /** Which system calls of one state write succeed. accepts(k) is what the k-th
      os.write returns: a positive count, or anything else for a failure. */
  datatype Faults = Faults(mkdir: bool, create: bool, accepts: nat -> int, sync: bool, replace: bool, syncDir: bool)

  ghost predicate Faultless(f: Faults) {
    f.mkdir && f.create && f.sync && f.replace && f.syncDir && forall k :: f.accepts(k) > 0
  }

  /** From the k-th on, the writes take all of what is left before one fails. */
  predicate Finishes(accepts: nat -> int, left: nat, k: nat)
    decreases left
  {
    left == 0 || (accepts(k) > 0 && (accepts(k) >= left || Finishes(accepts, left - accepts(k), k + 1)))
  }

  /** A state write of this many bytes meets no failure. */
  predicate Succeeds(f: Faults, size: nat) {
    f.mkdir && f.create && Finishes(f.accepts, size, 0) && f.sync && f.replace && f.syncDir
  }

  lemma {:induction false} ProgressFinishes(accepts: nat -> int, left: nat, k: nat)
    requires forall i :: accepts(i) > 0
    ensures Finishes(accepts, left, k)
    decreases left
  {
    if 0 < left && accepts(k) < left {
      ProgressFinishes(accepts, left - accepts(k), k + 1);
    }
  }

  lemma FaultlessSucceeds(f: Faults, size: nat)
    requires Faultless(f)
    ensures Succeeds(f, size)
  {
    ProgressFinishes(f.accepts, size, 0);
  }

  /** What a power loss may leave of a file whose bytes were never synced. */
  ghost function Torn(bytes: Bytes): set<File> {
    set k | 0 <= k <= |bytes| :: Present(bytes[..k])
  }

  /** The directory entry of the state file, with its temporary sibling. */
  class Disk {
    var file: File
    var temp: Option<Temp>
    ghost var durable: set<File>
    ghost var moments: seq<Moment>

    ghost predicate Valid()
      reads this
    {
      file in durable
    }

    constructor (existing: File)
      ensures Valid() && file == existing && durable == {existing} && moments == []
    {
      file, temp, durable, moments := existing, None, {existing}, [];
    }

    method Create()
      modifies this`temp
      ensures temp == Some(Temp([], false))
    {
      temp := Some(Temp([], false));
    }

    method Write(data: Bytes, n: nat)
      requires temp.Some? && n <= |data|
      modifies this`temp
      ensures temp == Some(Temp(old(temp.value.bytes) + data[..n], false))
    {
      temp := Some(Temp(temp.value.bytes + data[..n], false));
    }

    method Sync()
      requires temp.Some?
      modifies this`temp
      ensures temp == Some(Temp(old(temp.value.bytes), true))
    {
      temp := Some(Temp(temp.value.bytes, true));
    }

    /** Rename over the state file: readers see it at once, a power loss may
        bring back the old entry, and bytes never synced may come back torn. */
    method Replace()
      requires temp.Some?
      modifies this
      ensures temp == None && file == Present(old(temp.value.bytes))
      ensures durable == old(durable) + (if old(temp.value.synced) then {file} else Torn(old(temp.value.bytes)))
      ensures moments == old(moments) + [Moment(file, durable)]
      ensures Valid()
    {
      var t := temp.value;
      assert t.bytes[..|t.bytes|] == t.bytes;
      file, temp := Present(t.bytes), None;
      durable := durable + (if t.synced then {file} else Torn(t.bytes));
      moments := moments + [Moment(file, durable)];
    }

    /** Sync the directory: the current entry is the only one left. */
    method SyncDir()
      modifies this`durable, this`moments
      ensures durable == {file}
      ensures moments == old(moments) + [Moment(file, durable)]
    {
      durable := {file};
      moments := moments + [Moment(file, durable)];
    }

    method Unlink()
      modifies this`temp
      ensures temp == None
    {
      temp := None;
    }
  }

  /** Write all of data to the temporary file, however short each write falls. */
  method WriteFully(disk: Disk, data: Bytes, accepts: nat -> int) returns (ok: bool)
    requires disk.temp.Some?
    modifies disk`temp
    ensures disk.temp.Some?
    ensures ok ==> disk.temp.value.bytes == old(disk.temp.value.bytes) + data
    ensures ok <==> Finishes(accepts, |data|, 0)
  {
    var view, k := data, 0;
    while view != []
      invariant disk.temp.Some?
      invariant disk.temp.value.bytes + view == old(disk.temp.value.bytes) + data
      invariant k >= 0 && (Finishes(accepts, |data|, 0) <==> Finishes(accepts, |view|, k))
      decreases |view|
    {
      var written := if accepts(k) <= |view| then accepts(k) else |view|;
      if written <= 0 {
        return false;
      }
      disk.Write(view, written);
      assert view == view[..written] + view[written..];
      view, k := view[written..], k + 1;
    }
    return true;
  }

  // ------------------------------------------------------------ the gate

  datatype AdmittedFrame = AdmittedFrame(
    keyId: string,
    observerEpoch: string,
    frameHash: string,
    nonce: string,
    issuedAt: Time,
    expiresAt: Time)

  function FrameOf(e: Envelope): AdmittedFrame {
    AdmittedFrame(e.body.keyId, e.body.observerEpoch, e.body.frameHash, e.body.nonce, e.body.issuedAt, e.body.expiresAt)
  }

  /** How one call of admit ends: a frame, a named refusal, or GateStateError. */
  datatype Outcome = Admitted(frame: AdmittedFrame) | Refused(reason: Reason) | StateError

  class AttestationGate {
    const cfg: Config
    const disk: Disk?
    var epoch: Option<string>
    var seen: seq<Seen>
    var lastFrameId: Option<nat>
    var lastIssuedAt: Option<Time>
    var receipts: seq<Receipt>
    ghost var admitted: seq<Envelope>

    ghost predicate Valid()
      reads this, disk
    {
      && (disk != null ==> disk.Valid())
      && (lastFrameId.None? ==> lastIssuedAt.None?)
    }

    function Last(): Option<Watermark>
      reads this
    {
      if lastFrameId.None? then None else Some(Watermark(lastFrameId.value, lastIssuedAt))
    }

    function View(): Memory
      reads this
    {
      Memory(epoch, seen, Last())
    }

    /** The gate and its disk, as whole runs see them. */
    ghost function System(): GateRuns.System
      requires disk != null
      reads this, disk
    {
      GateRuns.System(View(), disk.file, disk.durable, admitted)
    }

    /** A gate starts from what its state file says, or does not start. */
    static method Start(cfg: Config, disk: Disk?) returns (r: Result<AttestationGate, LoadError>)
      requires disk != null ==> disk.Valid()
      ensures r.Ok? <==> disk == null || Load(cfg.codec, disk.file).Ok?
      ensures r.Ok? ==>
        && fresh(r.value) && r.value.Valid() && r.value.cfg == cfg && r.value.disk == disk
        && r.value.receipts == [] && r.value.admitted == []
        && r.value.View() == Boot(cfg, if disk == null then None else Load(cfg.codec, disk.file).value)
      ensures r.Err? ==> Load(cfg.codec, disk.file) == Err(r.error)
    {
      var watermark := None;
      if disk != null {
        var loaded := Load(cfg.codec, disk.file);
        match loaded {
          case Err(error) => return Err(error);
          case Ok(w) => watermark := w;
        }
      }
      var gate := new AttestationGate(cfg, disk, watermark);
      r := Ok(gate);
    }

    constructor (cfg: Config, disk: Disk?, watermark: Option<Watermark>)
      requires disk != null ==> disk.Valid()
      ensures Valid() && this.cfg == cfg && this.disk == disk && View() == Boot(cfg, watermark)
      ensures receipts == [] && admitted == []
    {
      this.cfg, this.disk := cfg, disk;
      epoch, seen := cfg.expectedEpoch, [];
      lastFrameId := if watermark.Some? then Some(watermark.value.frameId) else None;
      lastIssuedAt := if watermark.Some? then watermark.value.issuedAt else None;
      receipts, admitted := [], [];
    }

    /**
     Write, sync, rename, sync the directory. At every moment in between, and
     whatever fails, a power loss leaves an old content or the new one, whole; no
     temporary file is left behind.
    */
    method WriteState(frameId: nat, issuedAt: Time, faults: Faults) returns (ok: bool)
      requires disk != null && disk.Valid()
      modifies disk
      ensures disk.Valid()
      ensures ok <==>
        && faults.mkdir && faults.create && Finishes(faults.accepts, |cfg.codec.render(frameId, issuedAt)|, 0)
        && faults.sync && faults.replace && faults.syncDir
      ensures ok ==> disk.file == Present(cfg.codec.render(frameId, issuedAt)) && disk.durable == {disk.file}
      ensures disk.temp == if faults.mkdir && faults.create then None else old(disk.temp)
      ensures old(disk.moments) <= disk.moments
      ensures var saved := Present(cfg.codec.render(frameId, issuedAt));
        && Within(old(disk.file), old(disk.durable), saved, disk.file, disk.durable)
        && forall k :: |old(disk.moments)| <= k < |disk.moments| ==>
             Within(old(disk.file), old(disk.durable), saved, disk.moments[k].file, disk.moments[k].durable)
    {
      if !faults.mkdir || !faults.create {
        return false;
      }
      disk.Create();
      ok := WriteFully(disk, cfg.codec.render(frameId, issuedAt), faults.accepts);
      if !ok || !faults.sync {
        disk.Unlink();
        return false;
      }
      disk.Sync();
      if !faults.replace {
        disk.Unlink();
        return false;
      }
      disk.Replace();
      if !faults.syncDir {
        disk.Unlink();
        return false;
      }
      disk.SyncDir();
      return true;
    }

    /** The state of an admission of e gets to disk, if there is one. */
    predicate Persists(e: Envelope, faults: Faults) {
      disk == null || Succeeds(faults, |cfg.codec.render(e.body.frameId, e.body.issuedAt)|)
    }

    /** Persist first, then remember: a failed write changes nothing in memory. */
    method AdvanceWatermark(e: Envelope, faults: Faults) returns (ok: bool)
      requires Valid()
      modifies this`lastFrameId, this`lastIssuedAt, disk
      ensures Valid()
      ensures Last() == if ok then Some(Watermark(e.body.frameId, Some(e.body.issuedAt))) else old(Last())
      ensures ok <==> Persists(e, faults)
      ensures disk != null ==> old(disk.moments) <= disk.moments
      ensures disk != null ==> ok ==> disk.file == Saved(cfg.codec, e) && disk.durable == {disk.file}
      ensures disk != null ==>
        && Within(old(disk.file), old(disk.durable), Saved(cfg.codec, e), disk.file, disk.durable)
        && forall k :: |old(disk.moments)| <= k < |disk.moments| ==>
             Within(old(disk.file), old(disk.durable), Saved(cfg.codec, e), disk.moments[k].file, disk.moments[k].durable)
    {
      if disk != null {
        ok := WriteState(e.body.frameId, e.body.issuedAt, faults);
        if !ok {
          return;
        }
      }
      lastFrameId, lastIssuedAt := Some(e.body.frameId), Some(e.body.issuedAt);
      return true;
    }

    method DropExpired(now: real)
      modifies this`seen
      ensures seen == Unexpired(old(seen), now)
    {
      var kept, k := [], 0;
      while k < |seen|
        invariant 0 <= k <= |seen| && seen == old(seen)
        invariant kept == Unexpired(seen[..k], now)
      {
        assert seen[..k + 1][..k] == seen[..k];
        if seen[k].expiresAt > now {
          kept := kept + [seen[k]];
        }
        k := k + 1;
      }
      assert seen[..k] == seen;
      seen := kept;
    }

    /** While over the cap the oldest goes, with a receipt. */
    method DropExcess(now: real)
      modifies this`seen, this`receipts
      ensures var live, n := old(seen), Excess(old(seen), cfg.maxNonces);
        seen == live[n..] && receipts == old(receipts) + DropReceipts(live[..n], now)
    {
      ghost var live, dropped := seen, 0;
      while |seen| > cfg.maxNonces
        invariant 0 <= dropped <= Excess(live, cfg.maxNonces)
        invariant seen == live[dropped..]
        invariant receipts == old(receipts) + DropReceipts(live[..dropped], now)
        decreases |seen|
      {
        var oldest := seen[0];
        seen := seen[1..];
        receipts := receipts + [EvictedUnexpired(oldest.nonce, now)];
        assert live[..dropped + 1][..dropped] == live[..dropped];
        dropped := dropped + 1;
      }
    }

    /** Expired nonces first; then, while over the cap, the oldest, each with a receipt. */
    method EvictNonces(now: real)
      modifies this`seen, this`receipts
      ensures seen == Evicted(old(seen), now, cfg.maxNonces)
      ensures receipts == old(receipts) + EvictionReceipts(old(seen), now, cfg.maxNonces)
      ensures |seen| <= cfg.maxNonces
    {
      DropExpired(now);
      DropExcess(now);
    }

    /** The checks in order, then the state write, then memory: a refused envelope
        or a failed write changes nothing. */
    method Check(e: Envelope, now: real, faults: Faults) returns (r: Outcome)
      requires Valid()
      modifies this, disk
      ensures Valid()
      ensures r.Refused? ==> old(Decide(cfg, View(), e, now)) == Rejected(r.reason)
      ensures !r.Refused? ==> old(Decide(cfg, View(), e, now)) == Accepted
      ensures r.Admitted? ==> r.frame == FrameOf(e)
      ensures View() == if r.Admitted? then Commit(cfg, old(View()), e, now) else old(View())
      ensures admitted == if r.Admitted? then old(admitted) + [e] else old(admitted)
      ensures receipts == old(receipts) + if r.Admitted? then Forgotten(old(seen), e, now) else []
      ensures r.StateError? <==> old(Decide(cfg, View(), e, now)).Accepted? && !Persists(e, faults)
      ensures disk != null ==> Persisted(e, r)
      ensures disk != null ==> old(disk.moments) <= disk.moments
      ensures disk != null && r.Refused? ==> disk.moments == old(disk.moments)
      ensures disk != null ==> forall k :: |old(disk.moments)| <= k < |disk.moments| ==>
        Within(old(disk.file), old(disk.durable), Saved(cfg.codec, e), disk.moments[k].file, disk.moments[k].durable)
    {
      if e.body.keyId !in cfg.keyring {
        return Refused(UnknownKey);
      }
      if !cfg.signatureMatches(cfg.keyring[e.body.keyId], e) {
        return Refused(BadSignature);
      }
      if epoch.Some? && e.body.observerEpoch != epoch.value {
        return Refused(StaleEpoch);
      }
      if now < e.body.issuedAt {
        return Refused(NotYetValid);
      }
      if now > e.body.expiresAt {
        return Refused(Expired);
      }
      if Remembers(seen, e.body.nonce) {
        return Refused(ReplayedNonce);
      }
      if !Advances(Last(), e) {
        return Refused(StaleFrame);
      }
      var ok := AdvanceWatermark(e, faults);
      if !ok {
        return StateError;
      }
      if epoch.None? {
        epoch := Some(e.body.observerEpoch);
      }
      seen := seen + [Seen(e.body.nonce, e.body.expiresAt)];
      EvictNonces(now);
      admitted := admitted + [e];
      return Admitted(FrameOf(e));
    }

    /** The receipts for nonces the cap pushes out when e is admitted. */
    function Forgotten(seen: seq<Seen>, e: Envelope, now: real): seq<Receipt> {
      EvictionReceipts(seen + [Seen(e.body.nonce, e.body.expiresAt)], now, cfg.maxNonces)
    }

    /** What is on disk after the outcome. */
    twostate predicate Persisted(e: Envelope, new r: Outcome)
      requires disk != null
      reads disk
    {
      var saved := Saved(cfg.codec, e);
      match r
      case Admitted(_) => disk.file == saved && disk.durable == {saved}
      case Refused(_) => disk.file == old(disk.file) && disk.durable == old(disk.durable)
      case StateError => Within(old(disk.file), old(disk.durable), saved, disk.file, disk.durable)
    }

    /**
     Authenticate one envelope. The new memory, disk and receipts are those of
     one step of a run; only an admission changes the memory.
    */
    method Admit(e: Envelope, now: real, faults: Faults) returns (r: Outcome)
      requires Valid()
      modifies this, disk
      ensures Valid()
      ensures r.Refused? <==> old(Decide(cfg, View(), e, now).Rejected?)
      ensures r.Refused? ==> old(Decide(cfg, View(), e, now)) == Rejected(r.reason)
      ensures !r.Refused? <==>
        && e.body.keyId in cfg.keyring && cfg.signatureMatches(cfg.keyring[e.body.keyId], e)
        && (old(epoch) == None || old(epoch) == Some(e.body.observerEpoch))
        && e.body.issuedAt <= now <= e.body.expiresAt
        && (forall i :: 0 <= i < |old(seen)| ==> old(seen)[i].nonce != e.body.nonce)
        && (old(lastFrameId).Some? && old(lastIssuedAt) == None ==> e.body.frameId > old(lastFrameId).value)
        && (old(lastFrameId).Some? && old(lastIssuedAt).Some? ==>
              || e.body.issuedAt > old(lastIssuedAt).value
              || (e.body.issuedAt == old(lastIssuedAt).value && e.body.frameId > old(lastFrameId).value))
      ensures r.Admitted? ==>
        && r.frame == AdmittedFrame(e.body.keyId, e.body.observerEpoch, e.body.frameHash, e.body.nonce, e.body.issuedAt, e.body.expiresAt)
        && epoch == Some(e.body.observerEpoch) && lastFrameId == Some(e.body.frameId) && lastIssuedAt == Some(e.body.issuedAt)
      ensures View() == if r.Admitted? then Commit(cfg, old(View()), e, now) else old(View())
      ensures admitted == if r.Admitted? then old(admitted) + [e] else old(admitted)
      ensures receipts == old(receipts) + match r {
        case Admitted(_) => Forgotten(old(seen), e, now) + [Verdict(e, Accepted, now)]
        case Refused(reason) => [Verdict(e, Rejected(reason), now)]
        case StateError => []
      }
      ensures r.StateError? <==> old(Decide(cfg, View(), e, now)).Accepted? && !Persists(e, faults)
      ensures |receipts| == |old(receipts)| + 1 <==>
        || old(Decide(cfg, View(), e, now)).Rejected?
        || (Persists(e, faults) && |Unexpired(old(seen) + [Seen(e.body.nonce, e.body.expiresAt)], now)| <= cfg.maxNonces)
      ensures disk != null ==> match r {
        case Admitted(_) => Admits(cfg, old(System()), System(), e, now)
        case Refused(_) => Refuses(cfg, old(System()), System(), e, now)
        case StateError => Interrupted(cfg, old(System()), System(), e, now)
      }
      ensures disk != null ==> Next(cfg, old(System()), System())
      ensures disk != null ==> old(disk.moments) <= disk.moments
      ensures disk != null ==> forall k :: |old(disk.moments)| <= k < |disk.moments| ==>
        Interrupted(cfg, old(System()), old(System()).(file := disk.moments[k].file, durable := disk.moments[k].durable), e, now)
    {
      AcceptedExactlyWhen(cfg, View(), e, now);
      r := Check(e, now, faults);
      assert disk != null ==> r.Admitted? ==> Admits(cfg, old(System()), System(), e, now);
      assert disk != null ==> r.Refused? ==> Refuses(cfg, old(System()), System(), e, now);
      assert disk != null ==> r.StateError? ==> Interrupted(cfg, old(System()), System(), e, now);
      match r {
        case Admitted(_) => receipts := receipts + [Verdict(e, Accepted, now)];
        case Refused(reason) => receipts := receipts + [Verdict(e, Rejected(reason), now)];
        case StateError =>
      }
    }
  }
}
