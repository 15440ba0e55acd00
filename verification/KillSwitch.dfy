/**
 The stop sentinel as a file protocol: names point at inodes, and every process
 moves by atomic file-system steps that interleave freely. One drill is in
 flight at a time; operators engage and disengage concurrently, without limit.
*/
module KillSwitch {
  import opened Wrappers

  type Inode = nat
  type ClaimName = nat
  type Operator = nat

  /** A stop's content: the marker a drill wrote, or anything else. */
  datatype Content = Marker(drill: nat) | Text(text: string)

  const OPERATOR_TEXT := Text("PSOperator stopped by operator.\n")

  /** The sentinel's path and its claim siblings. The drill's temporary file is a
      name nobody else ever uses, so it is only held by the drill. */
  datatype Files = Files(path: Option<Inode>, claims: map<ClaimName, Inode>, content: map<Inode, Content>)

  /** Where the drill is: engage_exclusive, the canary, then disengage_if_owned. */
  datatype Drill =
    | Idle
    | Created(temp: Inode)           // temporary file made, marker not written yet
    | Written(temp: Inode)           // marker written
    | Linked                         // the path is this drill's stop
    | Refused                        // the path was taken; nothing engaged
    | Canary(owned: bool)            // the canary request runs
    | Releasing                      // about to open the path
    | Opened(fd: Inode)              // path open, not read yet
    | Verified                       // read its own marker at the path
    | Claimed(claim: ClaimName)      // path renamed to a claim
    | ClaimOpened(claim: ClaimName, fd: Inode)
    | Mine(claim: ClaimName)         // re-read its own marker in the claim
    | NotMine(claim: ClaimName)      // the claim is not provably its own

  /** An operator's disengage after its first unlink; the claims once it has scanned. */
  datatype Lift = PathUnlinked | Scanned(claims: set<ClaimName>)

  datatype State = State(
    files: Files,
    drill: Drill,
    drillId: nat,
    engaging: map<Operator, Inode>,
    lifting: map<Operator, Lift>,
    nextInode: Inode,
    nextClaim: ClaimName)

  datatype Step =
    | DrillCreate | DrillWrite | DrillLink | DrillUnlinkTemp | DrillCanaryDone
    | DrillOpen | DrillRead | DrillRename | DrillOpenClaim | DrillReadClaim | DrillUnlinkClaim | DrillPutBack
    | DrillDies
    | EngageOpen(op: Operator) | EngageWrite(op: Operator, text: string) | EngageDies(op: Operator)
    | LiftPath(op: Operator) | LiftScan(op: Operator) | LiftClaim(op: Operator, claim: ClaimName) | LiftEnds(op: Operator)

  /** The unlink steps of an operator's disengage. */
  predicate Lifts(step: Step) {
    step.LiftPath? || step.LiftClaim?
  }

  /** The steps that can turn the switch off: those, and the drill's of its own claim. */
  predicate Lowers(step: Step) {
    Lifts(step) || step == DrillUnlinkClaim
  }

  /** The steps that can turn the switch on: an engage opening the path, and the drill's link. */
  predicate Raises(step: Step) {
    step.EngageOpen? || step == DrillLink
  }

  function Remove<K, V>(m: map<K, V>, k: K): map<K, V> {
    m - {k}
  }

  /** One step of engage_exclusive or the canary; None when it is not the drill's next one. */
  function DrillNext(s: State, step: Step): Option<State> {
    var f := s.files;
    match (step, s.drill)
    case (DrillCreate, Idle) =>
      Some(s.(drill := Created(s.nextInode), drillId := s.drillId + 1, nextInode := s.nextInode + 1,
              files := f.(content := f.content[s.nextInode := Text("")])))
    case (DrillWrite, Created(temp)) =>
      Some(s.(drill := Written(temp), files := f.(content := f.content[temp := Marker(s.drillId)])))
    case (DrillLink, Written(temp)) =>
      Some(if f.path.None? then s.(drill := Linked, files := f.(path := Some(temp))) else s.(drill := Refused))
    case (DrillUnlinkTemp, Linked) => Some(s.(drill := Canary(true)))
    case (DrillUnlinkTemp, Refused) => Some(s.(drill := Canary(false)))
    case (DrillCanaryDone, Canary(owned)) => Some(s.(drill := if owned then Releasing else Idle))
    case (DrillDies, _) => Some(s.(drill := Idle))
    case _ => None
  }

  /** One step of disengage_if_owned; None when it is not the drill's next one. */
  function ReleaseNext(s: State, step: Step): Option<State> {
    var f := s.files;
    match (step, s.drill)
    case (DrillOpen, Releasing) => Some(s.(drill := if f.path.Some? then Opened(f.path.value) else Idle))
    case (DrillRead, Opened(fd)) =>
      Some(s.(drill := if fd in f.content && f.content[fd] == Marker(s.drillId) then Verified else Idle))
    case (DrillRename, Verified) =>
      Some(if f.path.None? then s.(drill := Idle)
           else s.(drill := Claimed(s.nextClaim), nextClaim := s.nextClaim + 1,
                   files := f.(path := None, claims := f.claims[s.nextClaim := f.path.value])))
    case (DrillOpenClaim, Claimed(n)) =>
      Some(s.(drill := if n in f.claims then ClaimOpened(n, f.claims[n]) else NotMine(n)))
    case (DrillReadClaim, ClaimOpened(n, fd)) =>
      Some(s.(drill := if fd in f.content && f.content[fd] == Marker(s.drillId) then Mine(n) else NotMine(n)))
    case (DrillUnlinkClaim, Mine(n)) => Some(s.(drill := Idle, files := f.(claims := Remove(f.claims, n))))
    case (DrillPutBack, NotMine(n)) =>
      Some(s.(drill := Idle,
              files := if n in f.claims then f.(path := Some(f.claims[n]), claims := Remove(f.claims, n)) else f))
    case _ => None
  }

  /** One step of an operator; None when it does not apply. */
  function OperatorNext(s: State, step: Step): Option<State> {
    var f := s.files;
    match step
    case EngageOpen(op) =>
      if op in s.engaging then None
      else if f.path.Some? then
        Some(s.(engaging := s.engaging[op := f.path.value], files := f.(content := f.content[f.path.value := Text("")])))
      else
        Some(s.(engaging := s.engaging[op := s.nextInode], nextInode := s.nextInode + 1,
                files := f.(path := Some(s.nextInode), content := f.content[s.nextInode := Text("")])))
    case EngageWrite(op, text) =>
      if op !in s.engaging then None
      else
        Some(s.(engaging := Remove(s.engaging, op), files := f.(content := f.content[s.engaging[op] := Text(text)])))
    case EngageDies(op) => if op !in s.engaging then None else Some(s.(engaging := Remove(s.engaging, op)))
    case LiftPath(op) =>
      if op in s.lifting then None
      else Some(s.(lifting := s.lifting[op := PathUnlinked], files := f.(path := None)))
    case LiftScan(op) =>
      if op in s.lifting && s.lifting[op].PathUnlinked? then Some(s.(lifting := s.lifting[op := Scanned(f.claims.Keys)]))
      else None
    case LiftClaim(op, n) =>
      if op in s.lifting && s.lifting[op].Scanned? && n in s.lifting[op].claims then
        Some(s.(lifting := s.lifting[op := Scanned(s.lifting[op].claims - {n})],
                files := f.(claims := Remove(f.claims, n))))
      else None
    case LiftEnds(op) => if op in s.lifting then Some(s.(lifting := Remove(s.lifting, op))) else None
    case _ => None
  }

  function Next(s: State, step: Step): Option<State> {
    var d := DrillNext(s, step);
    var r := ReleaseNext(s, step);
    if d.Some? then d else if r.Some? then r else OperatorNext(s, step)
  }

  // ------------------------------------------------------------ what is in force

  /** An inode somebody reading the switch can find. */
  ghost predicate Visible(f: Files, i: Inode) {
    f.path == Some(i) || exists n :: n in f.claims && f.claims[n] == i
  }

  /** The switch is on: a stop at the path or as a claim. */
  ghost predicate InForce(f: Files) {
    f.path.Some? || f.claims.Keys != {}
  }

  /** A stop other than the current drill's untouched one: an operator's, or what a
      dead drill left behind. */
  ghost predicate Foreign(s: State, i: Inode) {
    Visible(s.files, i) && i in s.files.content && s.files.content[i] != Marker(s.drillId)
  }

  ghost predicate ForeignStop(s: State) {
    exists i :: Foreign(s, i)
  }

  /** The drill owns the stop it linked, up to the end of its release. */
  predicate Owner(d: Drill) {
    !d.Idle? && !d.Created? && !d.Written? && !d.Refused? && d != Canary(false)
  }

  /** The claim of a release under way. */
  function OwnClaim(d: Drill): Option<ClaimName> {
    if d.Claimed? || d.ClaimOpened? || d.Mine? || d.NotMine? then Some(d.claim) else None
  }

  /** A stop engaged now may be lifted by a disengage already running: one that has
      unlinked the path and not listed the claims yet will find it in a claim, when
      the drill is about to rename the path for a stop it once read there. */
  predicate Exposed(s: State) {
    && (exists p :: p in s.lifting && s.lifting[p].PathUnlinked?)
    && (s.drill.Verified?
        || (s.drill.Opened? && s.files.path != Some(s.drill.fd)
            && s.drill.fd in s.files.content && s.files.content[s.drill.fd] == Marker(s.drillId)))
  }

  /** The drill has taken a stop that is not its own and has yet to put it back. */
  predicate HandingBack(s: State) {
    && OwnClaim(s.drill).Some? && OwnClaim(s.drill).value in s.files.claims
    && s.files.claims[OwnClaim(s.drill).value] in s.files.content
    && s.files.content[s.files.claims[OwnClaim(s.drill).value]] != Marker(s.drillId)
  }

  /** Every inode and claim somebody holds exists. */
  ghost predicate Exists(s: State) {
    var f := s.files;
    && (forall i :: i in f.content ==> i < s.nextInode)
    && (f.path.Some? ==> f.path.value in f.content)
    && (forall n :: n in f.claims ==> f.claims[n] in f.content && n < s.nextClaim)
    && (forall op :: op in s.engaging ==> s.engaging[op] in f.content)
    && (s.drill.Created? || s.drill.Written? ==> s.drill.temp in f.content)
    && (OwnClaim(s.drill).Some? ==> OwnClaim(s.drill).value < s.nextClaim)
  }

  /** A stop has one name, and a temporary file none. */
  ghost predicate OneName(s: State) {
    var f := s.files;
    && (forall n :: n in f.claims ==> f.path != Some(f.claims[n]))
    && (forall n, m :: n in f.claims && m in f.claims && n != m ==> f.claims[n] != f.claims[m])
    && (s.drill.Created? || s.drill.Written? ==>
          && f.path != Some(s.drill.temp)
          && (forall n :: n in f.claims ==> f.claims[n] != s.drill.temp)
          && (forall op :: op in s.engaging ==> s.engaging[op] != s.drill.temp))
  }

  /** An operator that has opened a stop has emptied it, and no marker is written back. */
  ghost predicate Stamps(s: State) {
    && Exists(s)
    && (forall op :: op in s.engaging ==> s.files.content[s.engaging[op]].Text?)
    && (forall i :: i in s.files.content && s.files.content[i].Marker? ==> s.files.content[i].drill <= s.drillId)
    && (s.drill.Written? ==> s.files.content[s.drill.temp] == Marker(s.drillId))
  }

  /** What the drill finds where it put its stop: its marker, or an operator's text. */
  ghost predicate Findings(s: State) {
    var f := s.files;
    && Exists(s)
    && (Owner(s.drill) && f.path.Some? ==>
          f.content[f.path.value] == Marker(s.drillId) || f.content[f.path.value].Text?)
    && (OwnClaim(s.drill).Some? && OwnClaim(s.drill).value in f.claims ==>
          var c := f.content[f.claims[OwnClaim(s.drill).value]];
          && (c == Marker(s.drillId) || c.Text?)
          && (s.drill.ClaimOpened? ==> s.drill.fd == f.claims[s.drill.claim])
          && (s.drill.Mine? ==> c == Marker(s.drillId))
          && (s.drill.NotMine? ==> c.Text?))
  }

  ghost predicate Inv(s: State) {
    Exists(s) && OneName(s) && Stamps(s) && Findings(s)
  }
}
