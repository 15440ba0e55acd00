/**
 The values the replay gate works on: envelopes, its memory, the persisted
 watermark file, and the decision it takes for one envelope.
 Signatures, keys and the JSON text are uninterpreted; times are reals.
*/
module GateState {
  import opened Wrappers
  import opened Snapshots

  type Key = nat

  /** Seconds since the epoch; the envelope schema and the loader admit no negative one. */
  type Time = t: real | t >= 0.0 witness 0.0

  datatype Body = Body(
    keyId: string,
    observerEpoch: string,
    issuedAt: Time,
    expiresAt: Time,
    nonce: string,
    frameId: nat,
    frameHash: string,
    scene: Scene)

  datatype Envelope = Envelope(body: Body, signature: string)

  /** Why an envelope is refused, in the order the checks run. */
  datatype Reason = UnknownKey | BadSignature | StaleEpoch | NotYetValid | Expired | ReplayedNonce | StaleFrame

  datatype Verdict = Accepted | Rejected(reason: Reason)

  datatype Receipt =
    | Verdict(e: Envelope, verdict: Verdict, at: real)
    | EvictedUnexpired(nonce: string, at: real)

  // ------------------------------------------------------------ state file

  type Bytes = seq<bv8>

  datatype File = Absent | Present(bytes: Bytes)

  /** A JSON value, as far as loading the watermark tells values apart. */
  datatype JValue = JBool(b: bool) | JInt(i: int) | JFloat(r: real) | JNonFinite | JOther

  datatype Json = NotJson | NotObject | Object(lastFrameId: Option<JValue>, lastIssuedAt: Option<JValue>)

  /** The JSON reader and writer of the state file, and whether an integer is
      small enough to convert to a float. */
  datatype Codec = Codec(render: (nat, Time) -> Bytes, parse: Bytes -> Json, fitsFloat: int -> bool)

  /** Reading back what was written gives the same two numbers. */
  ghost predicate Faithful(codec: Codec) {
    forall frameId: nat, issuedAt: Time ::
      codec.parse(codec.render(frameId, issuedAt)) == Object(Some(JInt(frameId)), Some(JFloat(issuedAt)))
  }

  /** issuedAt is None only for a state file written before it was recorded. */
  datatype Watermark = Watermark(frameId: nat, issuedAt: Option<Time>)

  datatype LoadError = Unreadable | NotAnObject | BadFrameId | BadIssuedAt

  /** The number a JSON value converts to, when it is a finite one that is not negative. */
  function IssueTime(codec: Codec, v: JValue): Option<Time> {
    match v
    case JInt(i) => if codec.fitsFloat(i) && i >= 0 then Some(i as real) else None
    case JFloat(r) => if r >= 0.0 then Some(r) else None
    case _ => None
  }

  /** What a starting gate takes from its state file; a missing file is a first start. */
  function Load(codec: Codec, file: File): Result<Option<Watermark>, LoadError> {
    if file.Absent? then Ok(None)
    else
      match codec.parse(file.bytes)
      case NotJson => Err(Unreadable)
      case NotObject => Err(NotAnObject)
      case Object(frameId, issuedAt) =>
        if !(frameId.Some? && frameId.value.JInt? && frameId.value.i >= 0) then Err(BadFrameId)
        else if issuedAt.None? then Ok(Some(Watermark(frameId.value.i, None)))
        else
          match IssueTime(codec, issuedAt.value)
          case None => Err(BadIssuedAt)
          case Some(t) => Ok(Some(Watermark(frameId.value.i, Some(t))))
  }

  /** The state file an admitted envelope leaves. */
  function Saved(codec: Codec, e: Envelope): File {
    Present(codec.render(e.body.frameId, e.body.issuedAt))
  }

  // ------------------------------------------------------------ the decision

  datatype Config = Config(
    keyring: map<string, Key>,
    signatureMatches: (Key, Envelope) -> bool,
    expectedEpoch: Option<string>,
    maxNonces: nat,
    codec: Codec)

  /** A remembered nonce and the expiry of the envelope that used it. */
  datatype Seen = Seen(nonce: string, expiresAt: Time)

  /** What the gate holds in memory; seen is in insertion order. */
  datatype Memory = Memory(epoch: Option<string>, seen: seq<Seen>, last: Option<Watermark>)

  predicate Remembers(seen: seq<Seen>, nonce: string) {
    exists i :: 0 <= i < |seen| && seen[i].nonce == nonce
  }

  /** The strict order of envelopes: issue time first, frame id on a tie. */
  predicate Later(a: Envelope, b: Envelope) {
    b.body.issuedAt < a.body.issuedAt || (b.body.issuedAt == a.body.issuedAt && b.body.frameId < a.body.frameId)
  }

  /** The envelope is beyond anything the watermark stands for. */
  predicate Advances(last: Option<Watermark>, e: Envelope) {
    match last
    case None => true
    case Some(Watermark(frameId, None)) => e.body.frameId > frameId
    case Some(Watermark(frameId, Some(t))) =>
      if e.body.issuedAt != t then e.body.issuedAt > t else e.body.frameId > frameId
  }

  predicate Authentic(cfg: Config, e: Envelope) {
    e.body.keyId in cfg.keyring && cfg.signatureMatches(cfg.keyring[e.body.keyId], e)
  }

  /** The checks, in their order. */
  function Decide(cfg: Config, mem: Memory, e: Envelope, now: real): Verdict {
    if e.body.keyId !in cfg.keyring then Rejected(UnknownKey)
    else if !cfg.signatureMatches(cfg.keyring[e.body.keyId], e) then Rejected(BadSignature)
    else if mem.epoch.Some? && e.body.observerEpoch != mem.epoch.value then Rejected(StaleEpoch)
    else if now < e.body.issuedAt then Rejected(NotYetValid)
    else if now > e.body.expiresAt then Rejected(Expired)
    else if Remembers(mem.seen, e.body.nonce) then Rejected(ReplayedNonce)
    else if !Advances(mem.last, e) then Rejected(StaleFrame)
    else Accepted
  }

  /** Exactly which envelopes are accepted: signed with a key of the keyring, of the
      pinned epoch if there is one, inside the window with both ends, with a nonce no
      remembered one equals, and past the watermark: by frame id alone when the state
      file is from before issue times were recorded. */
  lemma AcceptedExactlyWhen(cfg: Config, mem: Memory, e: Envelope, now: real)
    ensures Decide(cfg, mem, e, now) == Accepted <==>
      && e.body.keyId in cfg.keyring && cfg.signatureMatches(cfg.keyring[e.body.keyId], e)
      && (mem.epoch == None || mem.epoch == Some(e.body.observerEpoch))
      && e.body.issuedAt <= now <= e.body.expiresAt
      && (forall i :: 0 <= i < |mem.seen| ==> mem.seen[i].nonce != e.body.nonce)
      && (mem.last.Some? && mem.last.value.issuedAt == None ==> e.body.frameId > mem.last.value.frameId)
      && (mem.last.Some? && mem.last.value.issuedAt.Some? ==>
            || e.body.issuedAt > mem.last.value.issuedAt.value
            || (e.body.issuedAt == mem.last.value.issuedAt.value && e.body.frameId > mem.last.value.frameId))
  {}

  /** Exactly when each refusal is given: an earlier one hides the later ones. */
  lemma RefusedExactlyWhen(cfg: Config, mem: Memory, e: Envelope, now: real)
    ensures
      var signed := e.body.keyId in cfg.keyring && cfg.signatureMatches(cfg.keyring[e.body.keyId], e);
      var epochFits := mem.epoch == None || mem.epoch == Some(e.body.observerEpoch);
      var inWindow := e.body.issuedAt <= now <= e.body.expiresAt;
      var used := exists i :: 0 <= i < |mem.seen| && mem.seen[i].nonce == e.body.nonce;
      var past :=
        && (mem.last.Some? && mem.last.value.issuedAt == None ==> e.body.frameId > mem.last.value.frameId)
        && (mem.last.Some? && mem.last.value.issuedAt.Some? ==>
              || e.body.issuedAt > mem.last.value.issuedAt.value
              || (e.body.issuedAt == mem.last.value.issuedAt.value && e.body.frameId > mem.last.value.frameId));
      var verdict := Decide(cfg, mem, e, now);
      && (verdict == Rejected(UnknownKey) <==> e.body.keyId !in cfg.keyring)
      && (verdict == Rejected(BadSignature) <==> e.body.keyId in cfg.keyring && !signed)
      && (verdict == Rejected(StaleEpoch) <==> signed && !epochFits)
      && (verdict == Rejected(NotYetValid) <==> signed && epochFits && now < e.body.issuedAt)
      && (verdict == Rejected(Expired) <==> signed && epochFits && e.body.issuedAt <= now && e.body.expiresAt < now)
      && (verdict == Rejected(ReplayedNonce) <==> signed && epochFits && inWindow && used)
      && (verdict == Rejected(StaleFrame) <==> signed && epochFits && inWindow && !used && !past)
  {}

  /** Forgetting by expiry, keeping the insertion order. */
  function Unexpired(seen: seq<Seen>, now: real): seq<Seen> {
    if seen == [] then []
    else
      var rest := Unexpired(seen[..|seen| - 1], now);
      if seen[|seen| - 1].expiresAt <= now then rest else rest + [seen[|seen| - 1]]
  }

  function Excess(seen: seq<Seen>, cap: nat): (n: nat)
    ensures n <= |seen|
  {
    if |seen| > cap then |seen| - cap else 0
  }

  /** The nonce memory after an admission at `now`: expired nonces go first, then
      the oldest ones beyond the cap. */
  function Evicted(seen: seq<Seen>, now: real, cap: nat): seq<Seen> {
    var live := Unexpired(seen, now);
    live[Excess(live, cap)..]
  }

  function Commit(cfg: Config, mem: Memory, e: Envelope, now: real): Memory {
    Memory(
      Some(mem.epoch.GetOr(e.body.observerEpoch)),
      Evicted(mem.seen + [Seen(e.body.nonce, e.body.expiresAt)], now, cfg.maxNonces),
      Some(Watermark(e.body.frameId, Some(e.body.issuedAt))))
  }

  /** The memory of a gate that has just started from `watermark`. */
  function Boot(cfg: Config, watermark: Option<Watermark>): Memory {
    Memory(cfg.expectedEpoch, [], watermark)
  }

  /** One receipt for each nonce the cap pushes out, oldest first. */
  function DropReceipts(dropped: seq<Seen>, now: real): (r: seq<Receipt>)
    ensures |r| == |dropped| && forall i :: 0 <= i < |r| ==> r[i] == EvictedUnexpired(dropped[i].nonce, now)
  {
    if dropped == [] then []
    else DropReceipts(dropped[..|dropped| - 1], now) + [EvictedUnexpired(dropped[|dropped| - 1].nonce, now)]
  }

  /** The receipts of forgetting nonces at `now`. */
  function EvictionReceipts(seen: seq<Seen>, now: real, cap: nat): seq<Receipt> {
    var live := Unexpired(seen, now);
    DropReceipts(live[..Excess(live, cap)], now)
  }

  // ------------------------------------------------------------ first facts

  /** Exactly which state files a gate starts from, and the watermark it takes. */
  lemma LoadedExactlyWhen(codec: Codec, file: File)
    ensures file == Absent ==> Load(codec, file) == Ok(None)
    ensures file != Absent ==>
      var json := codec.parse(file.bytes);
      && (Load(codec, file).Ok? <==>
            && json.Object? && json.lastFrameId.Some? && json.lastFrameId.value.JInt? && json.lastFrameId.value.i >= 0
            && (json.lastIssuedAt.Some? ==>
                  || (json.lastIssuedAt.value.JInt? && json.lastIssuedAt.value.i >= 0 && codec.fitsFloat(json.lastIssuedAt.value.i))
                  || (json.lastIssuedAt.value.JFloat? && json.lastIssuedAt.value.r >= 0.0)))
      && (Load(codec, file).Ok? ==>
            && Load(codec, file).value.Some?
            && var w := Load(codec, file).value.value;
               && w.frameId == json.lastFrameId.value.i
               && (w.issuedAt.None? <==> json.lastIssuedAt.None?)
               && (w.issuedAt.Some? && json.lastIssuedAt.value.JFloat? ==> w.issuedAt.value == json.lastIssuedAt.value.r)
               && (w.issuedAt.Some? && json.lastIssuedAt.value.JInt? ==> w.issuedAt.value == json.lastIssuedAt.value.i as real))
  {}

  lemma LoadSaved(codec: Codec, e: Envelope)
    requires Faithful(codec)
    ensures Load(codec, Saved(codec, e)) == Ok(Some(Watermark(e.body.frameId, Some(e.body.issuedAt))))
  {
    assert codec.parse(codec.render(e.body.frameId, e.body.issuedAt))
        == Object(Some(JInt(e.body.frameId)), Some(JFloat(e.body.issuedAt)));
  }

  /** What is kept stays in the order of insertion. */
  lemma {:induction false} UnexpiredKeepsOrder(seen: seq<Seen>, now: real, i: nat, j: nat) returns (p: nat, q: nat)
    requires i < j < |Unexpired(seen, now)|
    ensures p < q < |seen| && seen[p] == Unexpired(seen, now)[i] && seen[q] == Unexpired(seen, now)[j]
  {
    var init := seen[..|seen| - 1];
    if j < |Unexpired(init, now)| {
      p, q := UnexpiredKeepsOrder(init, now, i, j);
    } else {
      UnexpiredContents(init, now);
      assert Unexpired(init, now)[i] in Unexpired(init, now);
      p :| 0 <= p < |init| && init[p] == Unexpired(init, now)[i];
      q := |seen| - 1;
    }
  }

  lemma {:induction false} UnexpiredContents(seen: seq<Seen>, now: real)
    ensures forall s :: s in Unexpired(seen, now) <==> s in seen && s.expiresAt > now
    ensures |Unexpired(seen, now)| <= |seen|
  {
    if seen != [] {
      var init, z := seen[..|seen| - 1], seen[|seen| - 1];
      UnexpiredContents(init, now);
      assert seen == init + [z];
    }
  }
}
