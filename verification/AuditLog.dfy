/** The audit log as it is kept: a file that is appended to, reopened and verified. */
module AuditLog {
  import opened Wrappers
  import opened AuditChain

  datatype OpenError = NoLastLine | BadLastLine

  /** Lines without the blank ones at either end. */
  function Stripped<B>(lines: seq<Line<B>>): seq<Line<B>> {
    if lines != [] && lines[|lines| - 1].Blank? then Stripped(lines[..|lines| - 1]) else lines
  }

  /** The hash a reopened log continues from. */
  function TailHash<B>(file: Option<seq<Line<B>>>): Result<string, OpenError> {
    if file.None? || file.value == [] then Ok(GENESIS)
    else
      var lines := Stripped(file.value);
      if lines == [] then Err(NoLastLine)
      else
        var last := lines[|lines| - 1];
        if last.Entry? && last.hash.Some? then Ok(last.hash.value) else Err(BadLastLine)
  }

  /** A log is continued from its last line that is not blank, whatever else is wrong with
      the file. */
  lemma {:induction false} TailHashInFull<B>(lines: seq<Line<B>>, i: nat)
    requires i < |lines| && !lines[i].Blank? && forall j :: i < j < |lines| ==> lines[j].Blank?
    ensures TailHash(Some(lines)) == if lines[i].Entry? && lines[i].hash.Some? then Ok(lines[i].hash.value) else Err(BadLastLine)
  {
    if i < |lines| - 1 {
      TailHashInFull(lines[..|lines| - 1], i);
    }
  }

  lemma {:induction false} NothingLeft<B>(lines: seq<Line<B>>)
    requires forall j :: 0 <= j < |lines| ==> lines[j].Blank?
    ensures Stripped(lines) == [] && (lines != [] ==> TailHash(Some(lines)) == Err(NoLastLine))
  {
    if lines != [] {
      NothingLeft(lines[..|lines| - 1]);
    }
  }

  lemma VerifiedTailHash<B>(hasher: Hasher<B>, lines: seq<Line<B>>)
    requires Verifies(hasher, lines)
    ensures TailHash(Some(lines)).Ok? && Tail(lines) == Some(TailHash(Some(lines)).value)
  {
    if lines != [] {
      assert FaultAt(hasher, lines, |lines| - 1).None?;
    }
  }

  // ------------------------------------------------------------ whole histories

  /** A file and the hash its writer will name next. */
  datatype Keeping<B> = Keeping(file: Option<seq<Line<B>>>, prev: string)

  datatype Operation<B> = AppendOne(body: B) | Reopen

  /** What an operation makes of the file; None when the log does not reopen. */
  function After<B>(hasher: Hasher<B>, k: Keeping<B>, op: Operation<B>): Option<Keeping<B>> {
    var lines := k.file.GetOr([]);
    match op
    case AppendOne(body) =>
      var entry := NextEntry(hasher, lines, k.prev, body);
      Some(Keeping(Some(lines + [entry]), hasher(entry.content)))
    case Reopen =>
      match TailHash(k.file)
      case Ok(hash) => Some(k.(prev := hash))
      case Err(_) => None
  }

  function AfterAll<B>(hasher: Hasher<B>, k: Keeping<B>, ops: seq<Operation<B>>): Option<Keeping<B>> {
    if ops == [] then Some(k)
    else
      match AfterAll(hasher, k, ops[..|ops| - 1])
      case None => None
      case Some(now) => After(hasher, now, ops[|ops| - 1])
  }

  function Bodies<B>(ops: seq<Operation<B>>): seq<B> {
    if ops == [] then []
    else Bodies(ops[..|ops| - 1]) + if ops[|ops| - 1].AppendOne? then [ops[|ops| - 1].body] else []
  }

  /** The entries hold these bodies, in order. */
  ghost predicate Holds<B>(lines: seq<Line<B>>, bodies: seq<B>) {
    |lines| == |bodies| && forall i :: 0 <= i < |lines| ==> lines[i].Entry? && lines[i].content.body == bodies[i]
  }

  /** Any log built by appends and reopenings from a missing file reopens every
      time, verifies, and holds exactly what was appended, in order. */
  lemma {:induction false} BuiltLogsVerify<B>(hasher: Hasher<B>, ops: seq<Operation<B>>)
    ensures
      var built := AfterAll(hasher, Keeping(None, GENESIS), ops);
      && built.Some?
      && Verifies(hasher, built.value.file.GetOr([])) && Tail(built.value.file.GetOr([])) == Some(built.value.prev)
      && Holds(built.value.file.GetOr([]), Bodies(ops))
  {
    if ops != [] {
      BuiltLogsVerify(hasher, ops[..|ops| - 1]);
      var now := AfterAll(hasher, Keeping(None, GENESIS), ops[..|ops| - 1]).value;
      match ops[|ops| - 1]
      case AppendOne(body) => AppendVerifies(hasher, now.file.GetOr([]), now.prev, body);
      case Reopen => ReopenContinues(hasher, now.file);
    }
  }

  /** These operations, from a missing file, leave this file. */
  ghost predicate Builds<B>(hasher: Hasher<B>, ops: seq<Operation<B>>, lines: seq<Line<B>>) {
    var built := AfterAll(hasher, Keeping(None, GENESIS), ops);
    built.Some? && built.value.file.GetOr([]) == lines
  }

  lemma {:induction false} BuiltAgain<B>(hasher: Hasher<B>, lines: seq<Line<B>>) returns (ops: seq<Operation<B>>)
    requires Verifies(hasher, lines)
    ensures Builds(hasher, ops, lines)
    decreases |lines|
  {
    ops := [];
    if lines != [] {
      var last := |lines| - 1;
      var init := lines[..last];
      PrefixVerifies(hasher, lines, last);
      ops := BuiltAgain(hasher, init);
      BuiltLogsVerify(hasher, ops);
      assert FaultAt(hasher, lines, last).None?;
      NoFaultIsAppended(hasher, lines, last);
      assert lines == init + [lines[last]];
      var longer := ops + [AppendOne(lines[last].content.body)];
      assert longer[..|longer| - 1] == ops;
      ops := longer;
    }
  }

  /** A file verifies exactly when appends and reopenings from a missing file could have
      left it: those are the rewrites, of any number of lines, that go unnoticed. */
  lemma VerifiesExactlyWhenBuilt<B(!new)>(hasher: Hasher<B>, lines: seq<Line<B>>)
    ensures Verifies(hasher, lines) <==> exists ops :: Builds(hasher, ops, lines)
  {
    if Verifies(hasher, lines) {
      var ops := BuiltAgain(hasher, lines);
    }
    if ops :| Builds(hasher, ops, lines) {
      BuiltLogsVerify(hasher, ops);
    }
  }

  lemma ReopenContinues<B>(hasher: Hasher<B>, file: Option<seq<Line<B>>>)
    ensures Verifies(hasher, file.GetOr([])) ==> TailHash(file).Ok? && Tail(file.GetOr([])) == Some(TailHash(file).value)
  {
    if file.Some? && Verifies(hasher, file.value) {
      VerifiedTailHash(hasher, file.value);
    }
  }

  // ------------------------------------------------------------ the log itself

  class AuditLog<B(!new)> {
    const hasher: Hasher<B>
    var file: Option<seq<Line<B>>>
    var prev: string

    function Lines(): seq<Line<B>>
      reads this
    {
      file.GetOr([])
    }

    function State(): Keeping<B>
      reads this
    {
      Keeping(file, prev)
    }

    /** The log has been left alone since it was opened. */
    predicate Continues()
      reads this
    {
      Tail(Lines()) == Some(prev)
    }

    constructor (hasher: Hasher<B>, file: Option<seq<Line<B>>>, prev: string)
      ensures this.hasher == hasher && this.file == file && this.prev == prev
    {
      this.hasher, this.file, this.prev := hasher, file, prev;
    }

    /** Opening continues from the last line, whatever it is, if it has a hash. */
    static method Open(hasher: Hasher<B>, file: Option<seq<Line<B>>>) returns (r: Result<AuditLog<B>, OpenError>)
      ensures r.Ok? <==> TailHash(file).Ok?
      ensures r.Ok? ==> fresh(r.value) && r.value.hasher == hasher && r.value.file == file && TailHash(file) == Ok(r.value.prev)
      ensures r.Ok? ==> forall prev :: After(hasher, Keeping(file, prev), Reopen) == Some(r.value.State())
      ensures Verifies(hasher, file.GetOr([])) ==> r.Ok? && r.value.Continues()
    {
      ReopenContinues(hasher, file);
      match TailHash(file)
      case Err(e) => return Err(e);
      case Ok(hash) =>
        var log := new AuditLog(hasher, file, hash);
        return Ok(log);
    }

    /** One more line; the log verifies afterwards exactly when it did before and
        nothing else had written to it. */
    method Append(body: B) returns (entry: Line<B>)
      modifies this
      ensures Continues()
      ensures entry == NextEntry(hasher, old(Lines()), old(prev), body)
      ensures file == Some(old(Lines()) + [entry])
      ensures After(hasher, old(State()), AppendOne(body)) == Some(State())
      ensures Verifies(hasher, Lines()) <==> old(Verifies(hasher, Lines()) && Continues())
    {
      AppendVerifies(hasher, Lines(), prev, body);
      var content := Content(Some(|Lines()| + 1), Some(prev), body);
      entry := Entry(content, Some(hasher(content)));
      file := Some(Lines() + [entry]);
      prev := hasher(content);
    }
  }

  datatype Check = Good(lines: nat) | Missing | Bad(line: nat, fault: Fault)

  /** Walk the chain to the first line that is wrong. */
  method Verify<B(==)>(hasher: Hasher<B>, file: Option<seq<Line<B>>>) returns (r: Check)
    ensures r.Missing? <==> file.None?
    ensures r.Good? <==> file.Some? && Verifies(hasher, file.value)
    ensures r.Good? ==> r.lines == |file.value|
    ensures r.Bad? ==>
      && file.Some? && 1 <= r.line <= |file.value|
      && FaultAt(hasher, file.value, r.line - 1) == Some(r.fault)
      && Verifies(hasher, file.value[..r.line - 1])
  {
    if file.None? {
      return Missing;
    }
    var lines, prev, i := file.value, GENESIS, 0;
    while i < |lines|
      invariant i <= |lines| && Expected(lines, i) == Some(prev)
      invariant forall j :: 0 <= j < i ==> FaultAt(hasher, lines, j).None?
    {
      ghost var fault := FaultAt(hasher, lines, i);
      forall j | 0 <= j < i ensures FaultAt(hasher, lines[..i], j).None? {
        assert FaultAt(hasher, lines, j).None?;
      }
      if !lines[i].Entry? {
        return Bad(i + 1, InvalidJson);
      }
      if lines[i].content.prevHash != Some(prev) {
        return Bad(i + 1, ChainBroken);
      }
      if lines[i].hash != Some(hasher(lines[i].content)) {
        return Bad(i + 1, HashMismatch);
      }
      if lines[i].content.seqNo != Some(i + 1) {
        return Bad(i + 1, SequenceGap);
      }
      assert fault.None?;
      prev, i := lines[i].hash.value, i + 1;
    }
    return Good(|lines|);
  }
}
