/**
 * The connected stream socket as the daemon uses it through `read`/`write`,
 * and the two retry loops `readx` and `writex` built on them.
 *
 * The kernel is abstract: successive calls follow a script that says
 * whether each call transfers bytes (and at most how many), is interrupted
 * by a signal (EINTR) or fails. A read that transfers nothing is end of
 * stream. Calls past the end of the script fail.
 */
module Channel {
  import opened CString

  datatype Io = Transfer(limit: nat) | Interrupted | Failed

  /**
   * `inbox`: bytes the peer has sent and the daemon has not read yet;
   * `script`: how successive kernel calls behave, `next` the index of the
   * next call in it; `outbox`: bytes written.
   */
  datatype Channel = Channel(inbox: Str, script: seq<Io>, next: nat, outbox: Str)

  /** How the most recent kernel call on `ch` behaved. */
  function LastCall(ch: Channel): Io
  {
    if 0 < ch.next <= |ch.script| then ch.script[ch.next - 1] else Failed
  }

  /** `ch'` is `ch` later on the same connection: same script, no call undone. */
  predicate Later(ch: Channel, ch': Channel)
  {
    ch'.script == ch.script && ch.next <= ch'.next
  }

  function Min(a: int, b: int): int
  {
    if a < b then a else b
  }

  /** How a retry loop ended: its result, the bytes it moved, and the index of the call after its last. */
  datatype LoopEnd = LoopEnd(code: int, moved: nat, next: nat)

  function Shifted(e: LoopEnd, n: nat): LoopEnd
  {
    e.(moved := e.moved + n)
  }

  /**
   * Lines 189-208 as a definition: `readx` from call `i` of `script`, with
   * `avail` bytes waiting and `need` still to read. EINTR retries, an error
   * or a read of 0 bytes ends with -1, and every other read moves bytes.
   */
  function ReadLoop(script: seq<Io>, i: nat, avail: nat, need: nat): LoopEnd
    decreases |script| - i
  {
    if need == 0 then LoopEnd(0, 0, i)
    else if i >= |script| then LoopEnd(-1, 0, i + 1)
    else match script[i]
      case Interrupted => ReadLoop(script, i + 1, avail, need)
      case Failed => LoopEnd(-1, 0, i + 1)
      case Transfer(limit) =>
        var k := Min(Min(limit, need), avail);
        if k == 0 then LoopEnd(-1, 0, i + 1)
        else Shifted(ReadLoop(script, i + 1, avail - k, need - k), k)
  }

  /**
   * Lines 210-225 as a definition: `writex` from call `i` of `script` with
   * `need` bytes still to write. EINTR retries and an error ends with -1.
   */
  function WriteLoop(script: seq<Io>, i: nat, need: nat): LoopEnd
    decreases |script| - i
  {
    if need == 0 then LoopEnd(0, 0, i)
    else if i >= |script| then LoopEnd(-1, 0, i + 1)
    else match script[i]
      case Interrupted => WriteLoop(script, i + 1, need)
      case Failed => LoopEnd(-1, 0, i + 1)
      case Transfer(limit) =>
        var k := Min(limit, need);
        Shifted(WriteLoop(script, i + 1, need - k), k)
  }

  /** A call that does not end a read: an EINTR, or a read that can move a byte. */
  predicate Retried(c: Io)
  {
    c.Interrupted? || (c.Transfer? && c.limit > 0)
  }

  /**
   * `readx` returns 0 exactly when it read all it needed, and never reads
   * more than was asked or sent. Its last call, when it returns -1, was an error
   * (or past the script), or a read of nothing because the read asked for
   * nothing or the stream was at its end.
   */
  lemma {:induction false} ReadLoopEnds(script: seq<Io>, i: nat, avail: nat, need: nat)
    decreases |script| - i
    ensures var e := ReadLoop(script, i, avail, need);
            (e.code == 0 || e.code == -1) && (e.code == 0 <==> e.moved == need) &&
            e.moved <= need && e.moved <= avail && i <= e.next && (need > 0 ==> i < e.next)
    ensures var e := ReadLoop(script, i, avail, need);
            need > 0 && e.code == -1 ==>
              e.next - 1 >= |script| || script[e.next - 1].Failed? ||
              (script[e.next - 1].Transfer? && (script[e.next - 1].limit == 0 || e.moved == avail))
    ensures var e := ReadLoop(script, i, avail, need);
            need > 0 && e.code == 0 ==> e.next - 1 < |script| && script[e.next - 1].Transfer? && script[e.next - 1].limit > 0
  {
    if need > 0 && i < |script| {
      match script[i]
      case Interrupted =>
        ReadLoopEnds(script, i + 1, avail, need);
        assert ReadLoop(script, i, avail, need) == ReadLoop(script, i + 1, avail, need);
      case Failed =>
      case Transfer(limit) =>
        var k := Min(Min(limit, need), avail);
        if k > 0 {
          ReadLoopEnds(script, i + 1, avail - k, need - k);
          assert ReadLoop(script, i, avail, need) == Shifted(ReadLoop(script, i + 1, avail - k, need - k), k);
        }
    }
  }

  /** Every call of `readx` but its last was an EINTR or a read that moved bytes. */
  lemma {:induction false} ReadLoopRetries(script: seq<Io>, i: nat, avail: nat, need: nat)
    decreases |script| - i
    ensures var e := ReadLoop(script, i, avail, need);
            i <= e.next && (i <= |script| ==> e.next <= |script| + 1) &&
            (need > 0 ==> i < e.next && forall j :: i <= j < e.next - 1 ==> j < |script| && Retried(script[j]))
  {
    var e := ReadLoop(script, i, avail, need);
    if need == 0 {
      assert e == LoopEnd(0, 0, i);
    } else if i >= |script| {
      assert e == LoopEnd(-1, 0, i + 1);
    } else {
      match script[i]
      case Interrupted =>
        ReadLoopRetries(script, i + 1, avail, need);
        assert e == ReadLoop(script, i + 1, avail, need);
        assert i + 1 < e.next;
      case Failed =>
        assert e == LoopEnd(-1, 0, i + 1);
      case Transfer(limit) =>
        var k := Min(Min(limit, need), avail);
        if k > 0 {
          ReadLoopRetries(script, i + 1, avail - k, need - k);
          var e' := ReadLoop(script, i + 1, avail - k, need - k);
          assert e == Shifted(e', k);
          if need == k {
            assert e' == LoopEnd(0, 0, i + 1);
          }
          assert i + 1 <= e'.next == e.next;
          forall j | i <= j < e.next - 1
            ensures j < |script| && Retried(script[j])
          {
            if j == i {
              assert script[i] == Transfer(limit) && limit >= k;
            }
          }
        } else {
          assert e == LoopEnd(-1, 0, i + 1);
        }
    }
  }

  /**
   * The converse, one call at a time: while bytes are still needed, an
   * error or the end of the stream ends `readx` at once with -1 and nothing
   * more read, and an EINTR is retried with nothing read.
   */
  lemma ReadLoopStops(script: seq<Io>, i: nat, avail: nat, need: nat)
    requires need > 0
    ensures i >= |script| || script[i].Failed? ==> ReadLoop(script, i, avail, need) == LoopEnd(-1, 0, i + 1)
    ensures i < |script| && script[i].Transfer? && (script[i].limit == 0 || avail == 0) ==>
              ReadLoop(script, i, avail, need) == LoopEnd(-1, 0, i + 1)
    ensures i < |script| && script[i].Interrupted? ==> ReadLoop(script, i, avail, need) == ReadLoop(script, i + 1, avail, need)
  {
  }

  /** A read that moves bytes leaves the rest of `readx` to the next call. */
  lemma ReadLoopMoves(script: seq<Io>, i: nat, avail: nat, need: nat)
    requires i < |script| && script[i].Transfer? && 0 < Min(Min(script[i].limit, need), avail)
    ensures var k := Min(Min(script[i].limit, need), avail);
            ReadLoop(script, i, avail, need) == Shifted(ReadLoop(script, i + 1, avail - k, need - k), k)
  {
  }

  /**
   * One call of `writex` while bytes remain: an EINTR is retried, an error
   * ends it with -1 and nothing more written, and a write of `k` bytes
   * leaves the rest to the next call.
   */
  lemma WriteLoopStep(script: seq<Io>, i: nat, need: nat)
    requires need > 0
    ensures i >= |script| || script[i].Failed? ==> WriteLoop(script, i, need) == LoopEnd(-1, 0, i + 1)
    ensures i < |script| && script[i].Interrupted? ==> WriteLoop(script, i, need) == WriteLoop(script, i + 1, need)
    ensures i < |script| && script[i].Transfer? ==>
              var k := Min(script[i].limit, need);
              WriteLoop(script, i, need) == Shifted(WriteLoop(script, i + 1, need - k), k)
  {
  }

  /** Every call of `writex` but its last was an EINTR or a write. */
  lemma {:induction false} WriteLoopRetries(script: seq<Io>, i: nat, need: nat)
    decreases |script| - i
    ensures var e := WriteLoop(script, i, need);
            i <= e.next && (need > 0 ==> i < e.next && forall j :: i <= j < e.next - 1 ==> j < |script| && !script[j].Failed?)
  {
    if need > 0 && i < |script| {
      match script[i]
      case Interrupted =>
        WriteLoopRetries(script, i + 1, need);
        assert WriteLoop(script, i, need) == WriteLoop(script, i + 1, need);
      case Failed =>
      case Transfer(limit) =>
        var k := Min(limit, need);
        WriteLoopRetries(script, i + 1, need - k);
        assert WriteLoop(script, i, need) == Shifted(WriteLoop(script, i + 1, need - k), k);
    }
  }

  /**
   * `writex` returns 0 exactly when it wrote all it had, never writes more,
   * and it returns -1
   * only on an error (or past the script), which ends it at once.
   */
  lemma {:induction false} WriteLoopEnds(script: seq<Io>, i: nat, need: nat)
    decreases |script| - i
    ensures var e := WriteLoop(script, i, need);
            (e.code == 0 || e.code == -1) && (e.code == 0 <==> e.moved == need) && e.moved <= need
    ensures var e := WriteLoop(script, i, need);
            i <= e.next && (need > 0 ==> i < e.next)
    ensures var e := WriteLoop(script, i, need);
            need > 0 && e.code == -1 ==> e.next - 1 >= |script| || script[e.next - 1].Failed?
    ensures var e := WriteLoop(script, i, need);
            need > 0 && e.code == 0 ==> e.next - 1 < |script| && script[e.next - 1].Transfer?
    ensures need > 0 && (i >= |script| || script[i].Failed?) ==> WriteLoop(script, i, need) == LoopEnd(-1, 0, i + 1)
  {
    if need > 0 && i < |script| {
      match script[i]
      case Interrupted =>
        WriteLoopEnds(script, i + 1, need);
        assert WriteLoop(script, i, need) == WriteLoop(script, i + 1, need);
      case Failed =>
      case Transfer(limit) =>
        var k := Min(limit, need);
        WriteLoopEnds(script, i + 1, need - k);
        assert WriteLoop(script, i, need) == Shifted(WriteLoop(script, i + 1, need - k), k);
    }
  }

  /**
   * The loop of `readx` (lines 194-206): read until `count` bytes have
   * arrived, retrying EINTR, and stop at an error or the end of the stream.
   */
  method ReadLoopX(ch: Channel, count: nat) returns (r: int, got: Str, ch': Channel)
    ensures |got| <= |ch.inbox| && got == ch.inbox[..|got|] && ch'.inbox == ch.inbox[|got|..]
    ensures ch'.outbox == ch.outbox && Later(ch, ch') && (count == 0 ==> ch' == ch)
    ensures ReadLoop(ch.script, ch.next, |ch.inbox|, count) == LoopEnd(r, |got|, ch'.next)
  {
    var n, next := 0, ch.next;
    r := 0;
    ghost var total := ReadLoop(ch.script, ch.next, |ch.inbox|, count);
    while n < count
      invariant 0 <= n <= count && n <= |ch.inbox| && ch.next <= next && r == 0
      invariant count == 0 ==> next == ch.next
      invariant total == Shifted(ReadLoop(ch.script, next, |ch.inbox| - n, count - n), n)
      decreases |ch.script| - next
    {
      var io := if next < |ch.script| then ch.script[next] else Failed;
      ghost var i := next;
      next := next + 1;
      match io
      case Interrupted =>
        // EINTR: try again without advancing
        ReadLoopStops(ch.script, i, |ch.inbox| - n, count - n);
      case Failed =>
        ReadLoopStops(ch.script, i, |ch.inbox| - n, count - n);
        r := -1;
        break;
      case Transfer(limit) =>
        var k := Min(Min(limit, count - n), |ch.inbox| - n);
        if k == 0 {
          // read returned 0: end of stream
          ReadLoopStops(ch.script, i, |ch.inbox| - n, count - n);
          r := -1;
          break;
        }
        ReadLoopMoves(ch.script, i, |ch.inbox| - n, count - n);
        n := n + k;
    }
    got, ch' := ch.inbox[..n], ch.(inbox := ch.inbox[n..], next := next);
  }

  /**
   * `readx`: read exactly `count` bytes, retrying short reads and EINTR.
   * Returns 0 with the bytes, or -1 on a negative count, an error or end
   * of stream; the bytes that did arrive are consumed either way.
   */
  method ReadX(ch: Channel, count: int) returns (r: int, got: Str, ch': Channel)
    ensures r == 0 || r == -1
    ensures count < 0 ==> r == -1 && got == [] && ch' == ch
    ensures count == 0 ==> r == 0 && got == [] && ch' == ch
    ensures r == 0 <==> count >= 0 && |got| == count
    ensures |got| <= count || got == []
    ensures |got| <= |ch.inbox| && got == ch.inbox[..|got|] && ch'.inbox == ch.inbox[|got|..]
    ensures ch'.outbox == ch.outbox
    ensures Later(ch, ch') && (count > 0 ==> ch.next < ch'.next)
    ensures r == 0 && count > 0 ==> LastCall(ch').Transfer? && LastCall(ch').limit > 0
    ensures count > 0 ==>
              (r == -1 <==>
                 LastCall(ch').Failed? ||
                 (LastCall(ch').Transfer? && (LastCall(ch').limit == 0 || (|got| < count && ch'.inbox == []))))
    ensures count > 0 ==> forall j :: ch.next <= j < ch'.next - 1 ==> j < |ch.script| && Retried(ch.script[j])
    ensures count >= 0 ==> ReadLoop(ch.script, ch.next, |ch.inbox|, count) == LoopEnd(r, |got|, ch'.next)
  {
    if count < 0 {
      return -1, [], ch;
    }
    r, got, ch' := ReadLoopX(ch, count);
    ReadLoopEnds(ch.script, ch.next, |ch.inbox|, count);
    ReadLoopRetries(ch.script, ch.next, |ch.inbox|, count);
  }

  /**
   * The loop of `writex` (lines 215-223): write until `count` bytes of
   * `data` have gone out, retrying EINTR, and stop at an error.
   */
  method WriteLoopX(ch: Channel, data: Str, count: nat) returns (r: int, ch': Channel)
    requires count <= |data|
    ensures ch'.inbox == ch.inbox && |ch.outbox| <= |ch'.outbox| <= |ch.outbox| + count
    ensures ch'.outbox == ch.outbox + data[..|ch'.outbox| - |ch.outbox|]
    ensures Later(ch, ch') && (count == 0 ==> ch' == ch)
    ensures WriteLoop(ch.script, ch.next, count) == LoopEnd(r, |ch'.outbox| - |ch.outbox|, ch'.next)
  {
    var n, next := 0, ch.next;
    r := 0;
    ghost var total := WriteLoop(ch.script, ch.next, count);
    while n < count
      invariant 0 <= n <= count && ch.next <= next && r == 0
      invariant count == 0 ==> next == ch.next
      invariant total == Shifted(WriteLoop(ch.script, next, count - n), n)
      decreases |ch.script| - next
    {
      var io := if next < |ch.script| then ch.script[next] else Failed;
      ghost var i := next;
      next := next + 1;
      match io
      case Interrupted =>
        // EINTR: try again without advancing
        WriteLoopStep(ch.script, i, count - n);
      case Failed =>
        WriteLoopStep(ch.script, i, count - n);
        r := -1;
        break;
      case Transfer(limit) =>
        var k := Min(limit, count - n);
        WriteLoopStep(ch.script, i, count - n);
        n := n + k;
    }
    ch' := ch.(outbox := ch.outbox + data[..n], next := next);
  }

  /**
   * `writex`: write the first `count` bytes of `data`, retrying short
   * writes and EINTR. Returns 0 once all were written, -1 on a negative
   * count or an error. There is no end-of-stream case for writes.
   */
  method WriteX(ch: Channel, data: Str, count: int) returns (r: int, ch': Channel)
    requires count <= |data|
    ensures r == 0 || r == -1
    ensures count < 0 ==> r == -1 && ch' == ch
    ensures count == 0 ==> r == 0 && ch' == ch
    ensures ch'.inbox == ch.inbox
    ensures |ch.outbox| <= |ch'.outbox| <= |ch.outbox| + (if count < 0 then 0 else count)
    ensures ch'.outbox == ch.outbox + data[..|ch'.outbox| - |ch.outbox|]
    ensures r == 0 <==> count >= 0 && |ch'.outbox| == |ch.outbox| + count
    ensures Later(ch, ch') && (count > 0 ==> ch.next < ch'.next)
    ensures r == 0 && count > 0 ==> LastCall(ch').Transfer?
    ensures count > 0 ==> (r == -1 <==> LastCall(ch').Failed?)
    ensures count > 0 ==> forall j :: ch.next <= j < ch'.next - 1 ==> j < |ch.script| && !ch.script[j].Failed?
    ensures count >= 0 ==> WriteLoop(ch.script, ch.next, count) == LoopEnd(r, |ch'.outbox| - |ch.outbox|, ch'.next)
  {
    if count < 0 {
      return -1, ch;
    }
    r, ch' := WriteLoopX(ch, data, count);
    WriteLoopEnds(ch.script, ch.next, count);
    WriteLoopRetries(ch.script, ch.next, count);
  }
}
