/** The hash-chained audit log as a value: which logs verify, and what that shows. */
module AuditChain {
  import opened Wrappers

  /** Everything an entry's hash covers; body is all but the chain's own fields. */
  datatype Content<B> = Content(seqNo: Option<int>, prevHash: Option<string>, body: B)

  /** One line of the file. Fields a JSON object lacks are None. */
  datatype Line<B> = Blank | Garbage | Entry(content: Content<B>, hash: Option<string>)

  const GENESIS := "0000000000000000000000000000000000000000000000000000000000000000"

  type Hasher<!B> = Content<B> -> string

  /** Different contents have different hashes. */
  ghost predicate Injective<B(!new)>(hasher: Hasher<B>) {
    forall c: Content<B>, d: Content<B> :: hasher(c) == hasher(d) ==> c == d
  }

  datatype Fault = InvalidJson | ChainBroken | HashMismatch | SequenceGap

  /** What line i must name as its predecessor's hash. */
  function Expected<B>(lines: seq<Line<B>>, i: nat): Option<string>
    requires i <= |lines|
  {
    if i == 0 then Some(GENESIS) else if lines[i - 1].Entry? then lines[i - 1].hash else None
  }

  /** What is wrong with line i, when the lines before it are right. */
  function FaultAt<B>(hasher: Hasher<B>, lines: seq<Line<B>>, i: nat): Option<Fault>
    requires i < |lines|
  {
    if !lines[i].Entry? then Some(InvalidJson)
    else if lines[i].content.prevHash != Expected(lines, i) then Some(ChainBroken)
    else if lines[i].hash != Some(hasher(lines[i].content)) then Some(HashMismatch)
    else if lines[i].content.seqNo != Some(i + 1) then Some(SequenceGap)
    else None
  }

  predicate Verifies<B>(hasher: Hasher<B>, lines: seq<Line<B>>) {
    forall i :: 0 <= i < |lines| ==> FaultAt(hasher, lines, i).None?
  }

  /** The chain's tail: the hash the next entry names. */
  function Tail<B>(lines: seq<Line<B>>): Option<string> {
    Expected(lines, |lines|)
  }

  /** The entry an append writes. */
  function NextEntry<B>(hasher: Hasher<B>, lines: seq<Line<B>>, prev: string, body: B): Line<B> {
    var content := Content(Some(|lines| + 1), Some(prev), body);
    Entry(content, Some(hasher(content)))
  }

  /** Written out: line i is an entry numbered i + 1, with its own hash, that names the hash
      of the line before it, or sixty-four zeros if it is the first. */
  lemma VerifiesInFull<B>(hasher: Hasher<B>, lines: seq<Line<B>>)
    ensures Verifies(hasher, lines) <==>
      forall i :: 0 <= i < |lines| ==>
        && lines[i].Entry? && lines[i].content.seqNo == Some(i + 1) && lines[i].hash == Some(hasher(lines[i].content))
        && lines[i].content.prevHash == if i == 0 then Some("0000000000000000000000000000000000000000000000000000000000000000") else PrevHash(lines, i)
  {
    forall i | 0 <= i < |lines|
      ensures FaultAt(hasher, lines, i).None? <==>
        && lines[i].Entry? && lines[i].content.seqNo == Some(i + 1) && lines[i].hash == Some(hasher(lines[i].content))
        && lines[i].content.prevHash == if i == 0 then Some("0000000000000000000000000000000000000000000000000000000000000000") else PrevHash(lines, i)
    {}
  }

  function PrevHash<B>(lines: seq<Line<B>>, i: nat): Option<string>
    requires 0 < i <= |lines|
  {
    if lines[i - 1].Entry? then lines[i - 1].hash else None
  }

  /** Exactly what each fault of line i says; an earlier one hides the later ones. */
  lemma FaultInFull<B>(hasher: Hasher<B>, lines: seq<Line<B>>, i: nat)
    requires i < |lines|
    ensures
      var entry := lines[i].Entry?;
      var chained := entry && lines[i].content.prevHash == if i == 0 then Some("0000000000000000000000000000000000000000000000000000000000000000") else PrevHash(lines, i);
      var hashed := entry && lines[i].hash == Some(hasher(lines[i].content));
      && (FaultAt(hasher, lines, i) == Some(InvalidJson) <==> !entry)
      && (FaultAt(hasher, lines, i) == Some(ChainBroken) <==> entry && !chained)
      && (FaultAt(hasher, lines, i) == Some(HashMismatch) <==> chained && !hashed)
      && (FaultAt(hasher, lines, i) == Some(SequenceGap) <==> chained && hashed && lines[i].content.seqNo != Some(i + 1))
  {
  }

  // ------------------------------------------------------------ appending

  /** An append makes a verifying log exactly when the log verified and prev was its
      tail: it neither breaks a good log nor mends a bad one. */
  lemma AppendVerifies<B>(hasher: Hasher<B>, lines: seq<Line<B>>, prev: string, body: B)
    ensures
      var longer := lines + [NextEntry(hasher, lines, prev, body)];
      && (Verifies(hasher, longer) <==> Verifies(hasher, lines) && Tail(lines) == Some(prev))
      && Tail(longer) == Some(hasher(longer[|lines|].content))
  {
    var longer := lines + [NextEntry(hasher, lines, prev, body)];
    forall i | 0 <= i < |lines| ensures FaultAt(hasher, longer, i) == FaultAt(hasher, lines, i) {
      assert longer[i] == lines[i];
    }
    assert FaultAt(hasher, longer, |lines|).None? <==> Tail(lines) == Some(prev);
    assert Verifies(hasher, longer) ==> forall i :: 0 <= i < |lines| ==> FaultAt(hasher, longer, i).None?;
  }

  // ------------------------------------------------------------ what verifying shows

  /** The tail pins the whole log: of two logs that verify, with the same last
      hash, there is only one. So whoever keeps the last hash notices any edit,
      insertion, reordering, truncation or replacement. */
  lemma {:induction false} TailPinsTheLog<B(!new)>(hasher: Hasher<B>, a: seq<Line<B>>, b: seq<Line<B>>)
    requires Injective(hasher) && Verifies(hasher, a) && Verifies(hasher, b)
    requires a != [] && b != [] && Tail(a) == Tail(b)
    ensures a == b
    decreases |a|
  {
    var i, j := |a| - 1, |b| - 1;
    assert FaultAt(hasher, a, i).None? && FaultAt(hasher, b, j).None?;
    assert a[i].content == b[j].content && i == j;
    var initA, initB := a[..i], b[..i];
    assert a == initA + [a[i]] && b == initB + [b[i]];
    if i > 0 {
      PrefixVerifies(hasher, a, i);
      PrefixVerifies(hasher, b, i);
      assert Tail(initA) == a[i].content.prevHash == Tail(initB);
      TailPinsTheLog(hasher, initA, initB);
    }
  }

  /** Two verifying logs with one hash in common are the same up to there. So a rewrite
      of any number of lines that still verifies has a new hash in every line from the
      first one changed to the end. */
  lemma SharedHashSharesThePast<B(!new)>(hasher: Hasher<B>, a: seq<Line<B>>, j: nat, b: seq<Line<B>>, k: nat)
    requires Injective(hasher) && Verifies(hasher, a) && Verifies(hasher, b)
    requires j < |a| && k < |b| && Tail(a[..j + 1]) == Tail(b[..k + 1])
    ensures j == k && a[..j + 1] == b[..k + 1]
  {
    PrefixVerifies(hasher, a, j + 1);
    PrefixVerifies(hasher, b, k + 1);
    TailPinsTheLog(hasher, a[..j + 1], b[..k + 1]);
  }

  /** Without the last hash, cutting lines off the end goes unnoticed. */
  lemma PrefixVerifies<B>(hasher: Hasher<B>, lines: seq<Line<B>>, n: nat)
    requires Verifies(hasher, lines) && n <= |lines|
    ensures Verifies(hasher, lines[..n])
  {
    forall i | 0 <= i < n ensures FaultAt(hasher, lines[..n], i).None? {
      assert FaultAt(hasher, lines, i).None?;
    }
  }

  /** Rearranging the lines of a verifying log, dropping some or repeating some,
      gives a log that verifies exactly when it is a prefix: deleting inside,
      reordering and duplicating are noticed, cutting the end is not. */
  lemma OnlyPrefixesVerify<B>(hasher: Hasher<B>, lines: seq<Line<B>>, picked: seq<Line<B>>)
    requires Verifies(hasher, lines)
    requires forall i :: 0 <= i < |picked| ==> picked[i] in lines
    ensures Verifies(hasher, picked) <==> picked <= lines
  {
    if Verifies(hasher, picked) {
      forall i | 0 <= i < |picked| ensures i < |lines| && picked[i] == lines[i] {
        var j :| 0 <= j < |lines| && lines[j] == picked[i];
        assert FaultAt(hasher, lines, j).None? && FaultAt(hasher, picked, i).None?;
      }
      if picked != [] {
        var last := |picked| - 1;
        assert picked[last] in lines;
        assert last < |lines|;
      }
    }
    if picked <= lines {
      PrefixVerifies(hasher, lines, |picked|);
      assert lines[..|picked|] == picked;
    }
  }

  /** A line has no fault exactly when an append would have written it there. */
  lemma NoFaultIsAppended<B>(hasher: Hasher<B>, lines: seq<Line<B>>, i: nat)
    requires i < |lines| && Tail(lines[..i]).Some?
    ensures FaultAt(hasher, lines, i).None? <==>
      lines[i].Entry? && lines[i] == NextEntry(hasher, lines[..i], Tail(lines[..i]).value, lines[i].content.body)
  {
    assert Expected(lines, i) == Tail(lines[..i]);
  }

  /** Exactly which rewrites of one line go unnoticed: none but of the last line, by
      an entry chained and numbered as an append would have written it. Any other
      is noticed at the line, or by the chain at the next one. */
  lemma EditIsNoticed<B(!new)>(hasher: Hasher<B>, lines: seq<Line<B>>, i: nat, forged: Line<B>)
    requires Injective(hasher) && Verifies(hasher, lines) && i < |lines|
    ensures Verifies(hasher, lines[i := forged]) <==>
      || forged == lines[i]
      || (i == |lines| - 1 && forged.Entry? && Tail(lines[..i]).Some?
          && forged == NextEntry(hasher, lines[..i], Tail(lines[..i]).value, forged.content.body))
    ensures i < |lines| - 1 && forged != lines[i] ==>
      FaultAt(hasher, lines[i := forged], i).Some? || FaultAt(hasher, lines[i := forged], i + 1) == Some(ChainBroken)
  {
    var edited := lines[i := forged];
    assert FaultAt(hasher, lines, i).None?;
    assert edited[i] == forged && Expected(edited, i) == Expected(lines, i) == Tail(lines[..i]);
    forall k | 0 <= k < i ensures FaultAt(hasher, edited, k).None? {
      assert FaultAt(hasher, lines, k).None?;
    }
    if i < |lines| - 1 {
      assert FaultAt(hasher, lines, i + 1).None?;
      assert edited[i + 1] == lines[i + 1];
      assert Verifies(hasher, edited) ==> FaultAt(hasher, edited, i).None? && FaultAt(hasher, edited, i + 1).None?;
      if forged == lines[i] {
        assert edited == lines;
      }
    } else {
      assert Verifies(hasher, edited) <==> FaultAt(hasher, edited, i).None?;
      assert edited[..i] == lines[..i];
      assert i > 0 ==> FaultAt(hasher, lines, i - 1).None?;
      NoFaultIsAppended(hasher, edited, i);
    }
  }
}
