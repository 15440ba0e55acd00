/** The chip's serial frames: built, checked and taken apart. */
module Ch9329Frames {
  import opened Wrappers

  type Byte = b: int | 0 <= b < 256

  const HEAD0: Byte := 0x57
  const HEAD1: Byte := 0xAB
  const DEV_ADDR: Byte := 0x00
  const CMD_SEND_KB_GENERAL: Byte := 0x02
  const CMD_SEND_MS_ABS: Byte := 0x04

  datatype Report = Report(cmd: Byte, data: seq<Byte>)

  datatype FrameError = NotAFrame | BadChecksum

  function Sum(s: seq<Byte>): nat {
    if s == [] then 0 else Sum(s[..|s| - 1]) + s[|s| - 1]
  }

  /** The length field is one byte wide. */
  function BuildFrame(cmd: Byte, data: seq<Byte>): seq<Byte>
    requires |data| < 256
  {
    var body: seq<Byte> := [HEAD0, HEAD1, DEV_ADDR, cmd, |data|] + data;
    body + [Sum(body) % 256]
  }

  lemma SumSnoc(s: seq<Byte>, b: Byte)
    ensures Sum(s + [b]) == Sum(s) + b
  {
    assert (s + [b])[..|s|] == s;
  }

  lemma {:induction false} SumJoin(s: seq<Byte>, t: seq<Byte>)
    ensures Sum(s + t) == Sum(s) + Sum(t)
  {
    if t == [] {
      assert s + t == s;
    } else {
      assert (s + t)[..|s + t| - 1] == s + t[..|t| - 1];
      SumJoin(s, t[..|t| - 1]);
    }
  }

  lemma HeadSum(cmd: Byte, length: Byte)
    ensures Sum([HEAD0, HEAD1, DEV_ADDR, cmd, length]) == 0x57 + 0xAB + cmd + length
  {
    var one: seq<Byte> := [HEAD0];
    var two, three, four := one + [HEAD1], one + [HEAD1] + [DEV_ADDR], one + [HEAD1] + [DEV_ADDR] + [cmd];
    SumSnoc([], HEAD0);
    SumSnoc(one, HEAD1);
    SumSnoc(two, DEV_ADDR);
    SumSnoc(three, cmd);
    SumSnoc(four, length);
    assert [] + [HEAD0] == one;
    assert [HEAD0, HEAD1, DEV_ADDR, cmd, length] == four + [length];
  }

  /** A frame by its bytes: 57 AB 00, the command, the length, the data, and the sum of all
      of these in one byte. */
  lemma FrameInBytes(cmd: Byte, data: seq<Byte>)
    requires |data| < 256
    ensures
      var f := BuildFrame(cmd, data);
      && |f| == |data| + 6 && f[0] == 0x57 && f[1] == 0xAB && f[2] == 0 && f[3] == cmd && f[4] == |data|
      && f[5..|f| - 1] == data
      && f[|f| - 1] == (0x57 + 0xAB + cmd + |data| + Sum(data)) % 256
  {
    var head: seq<Byte> := [HEAD0, HEAD1, DEV_ADDR, cmd, |data|];
    var f := BuildFrame(cmd, data);
    SumJoin(head, data);
    HeadSum(cmd, |data|);
    assert f[..5] == head && f[5..|f| - 1] == data;
  }

  function Parsed(f: seq<Byte>): Result<Report, FrameError> {
    if |f| < 6 || f[0] != HEAD0 || f[1] != HEAD1 then Err(NotAFrame)
    else if Sum(f[..|f| - 1]) % 256 != f[|f| - 1] then Err(BadChecksum)
    else
      var end := if 5 + f[4] <= |f| then 5 + f[4] else |f|;
      Ok(Report(f[3], f[5..end]))
  }

  lemma ParsedBuilt(cmd: Byte, data: seq<Byte>)
    requires |data| < 256
    ensures Parsed(BuildFrame(cmd, data)) == Ok(Report(cmd, data))
  {
    var body: seq<Byte> := [HEAD0, HEAD1, DEV_ADDR, cmd, |data|] + data;
    var f := BuildFrame(cmd, data);
    assert f[..|f| - 1] == body;
    assert f[5..5 + |data|] == data;
  }

  lemma {:induction false} SumUpdate(s: seq<Byte>, i: nat, b: Byte)
    requires i < |s|
    ensures Sum(s[i := b]) == Sum(s) - s[i] + b
  {
    var init := s[..|s| - 1];
    if i == |s| - 1 {
      assert s[i := b][..|s| - 1] == init;
    } else {
      SumUpdate(init, i, b);
      assert s[i := b][..|s| - 1] == init[i := b];
    }
  }

  /** Any one byte garbled on the line is noticed. */
  lemma GarbledByteIsNoticed(cmd: Byte, data: seq<Byte>, i: nat, b: Byte)
    requires |data| < 256 && i < |data| + 6 && BuildFrame(cmd, data)[i] != b
    ensures Parsed(BuildFrame(cmd, data)[i := b]).Err?
  {
    var f := BuildFrame(cmd, data);
    var body, g := f[..|f| - 1], f[i := b];
    assert body == [HEAD0, HEAD1, DEV_ADDR, cmd, |data|] + data;
    if i < |body| {
      SumUpdate(body, i, b);
      assert g[..|g| - 1] == body[i := b];
      SumShifts(Sum(body), b - body[i]);
    } else {
      assert g[..|g| - 1] == body;
    }
  }

  lemma SumShifts(sum: nat, d: int)
    requires -256 < d < 256 && d != 0 && sum + d >= 0
    ensures (sum + d) % 256 != sum % 256
  {}
}
