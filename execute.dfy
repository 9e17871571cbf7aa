/**
 * `execute` and the per-connection frame loop of `main` (installd.c).
 *
 * The request buffer is the fixed `buf[BUFFER_MAX]` of `main`. `execute`
 * tokenises it in place (white space becomes NUL, `arg[]` points into the
 * buffer), dispatches through the command table, and `snprintf`s the reply
 * into the same buffer at the tokeniser's cursor, from where it is sent
 * behind a 2-byte length.
 *
 * Where the C code would read or write outside `buf`, which the language
 * leaves undefined, the model stops with an explicit `Undefined` outcome
 * instead of inventing a behaviour.
 */
module Execute {
  import opened CString
  import opened Channel
  import opened Commands

  const BUFFER_MAX: nat := 1024
  const TOKEN_MAX: nat := 8

  /**
   * Where the tokeniser stops: `mem` is the buffer after its NUL writes,
   * `cursor` the final value of `cmd`, `args` the offsets `arg[0..n]`
   * (so n == |args| - 1), `tooMany` whether it gave up at TOKEN_MAX.
   * `Overrun`: the scan would read past the end of the buffer.
   */
  datatype Scan = Scanned(mem: seq<Byte>, cursor: nat, args: seq<nat>, tooMany: bool) | Overrun

  predicate ArgsBefore(args: seq<nat>, pos: nat)
  {
    forall k :: 0 <= k < |args| ==> args[k] <= pos
  }

  /**
   * The loop at lines 247-259, from cursor `cmd` with the offsets found so
   * far. A white-space byte becomes NUL and the cursor moves past it, and
   * then the loop's own `cmd++` moves it once more: the byte right after a
   * separator is never examined.
   */
  function ScanFrom(mem: seq<Byte>, cmd: nat, args: seq<nat>): (s: Scan)
    requires 1 <= |args| <= TOKEN_MAX && cmd <= |mem| + 1 && ArgsBefore(args, cmd)
    decreases |mem| + 1 - cmd
    ensures s.Scanned? ==> |s.mem| == |mem| && ArgsBefore(s.args, s.cursor)
    ensures s.Scanned? ==> |args| <= |s.args| && s.args[..|args|] == args
    ensures s.Scanned? && !s.tooMany ==>
              s.cursor < |mem| && s.mem[s.cursor] == NUL && |s.args| <= TOKEN_MAX
    ensures s.Scanned? && s.tooMany ==> s.cursor <= |mem| && |s.args| == TOKEN_MAX + 1
    ensures s.Scanned? ==> forall i :: 0 <= i < |mem| ==> s.mem[i] == mem[i] || (IsSpace(mem[i]) && s.mem[i] == NUL)
  {
    if cmd >= |mem| then Overrun
    else if mem[cmd] == NUL then Scanned(mem, cmd, args, false)
    else if IsSpace(mem[cmd]) then
      var args' := args + [cmd + 1];
      if |args'| == TOKEN_MAX + 1 then Scanned(mem[cmd := NUL], cmd + 1, args', true)
      else ScanFrom(mem[cmd := NUL], cmd + 2, args')
    else ScanFrom(mem, cmd + 1, args)
  }

  /**
   * Lines 247-259 from the start of the buffer: the scan overruns, or it
   * leaves the buffer with some separators blanked and offset 0 first.
   */
  function Tokens(mem: seq<Byte>): (s: Scan)
    ensures s.Scanned? ==> |s.mem| == |mem| && |s.args| >= 1 && s.args[0] == 0 && ArgsBefore(s.args, s.cursor)
    ensures s.Scanned? && !s.tooMany ==> s.cursor < |mem| && s.mem[s.cursor] == NUL && |s.args| <= TOKEN_MAX
    ensures s.Scanned? && s.tooMany ==> |s.args| == TOKEN_MAX + 1
    ensures s.Scanned? ==> forall i :: 0 <= i < |mem| ==> s.mem[i] == mem[i] || (IsSpace(mem[i]) && s.mem[i] == NUL)
  {
    ScanFrom(mem, 0, [0])
  }

  /**
   * Lines 244-259 on the buffer itself: writes the NULs, returns the
   * cursor, the argument offsets and whether the scan stopped at TOKEN_MAX,
   * or reports that it would have read past the buffer.
   */
  method Tokenize(buf: array<Byte>) returns (cursor: nat, args: seq<nat>, tooMany: bool, overrun: bool)
    modifies buf
    ensures overrun ==> Tokens(old(buf[..])) == Overrun
    ensures !overrun ==> Tokens(old(buf[..])) == Scanned(buf[..], cursor, args, tooMany)
  {
    var cmd: nat := 0;
    args, tooMany, overrun, cursor := [0], false, false, 0;
    while true
      invariant cmd <= buf.Length + 1 && 1 <= |args| <= TOKEN_MAX && ArgsBefore(args, cmd)
      invariant ScanFrom(buf[..], cmd, args) == Tokens(old(buf[..]))
      decreases buf.Length + 1 - cmd
    {
      if cmd >= buf.Length {
        // `*cmd` would read outside the buffer
        overrun := true;
        return;
      }
      if buf[cmd] == NUL {
        break;
      }
      if IsSpace(buf[cmd]) {
        buf[cmd] := NUL;
        cmd := cmd + 1;
        args := args + [cmd];
        if |args| - 1 == TOKEN_MAX {
          cursor, tooMany := cmd, true;
          return;
        }
      }
      cmd := cmd + 1;
    }
    cursor := cmd;
  }

  /** The C strings `arg[0..n]` point at, read from the tokenised buffer. */
  function ArgStrings(mem: seq<Byte>, args: seq<nat>): (ts: seq<Str>)
    ensures |ts| == |args|
    ensures forall k :: 0 <= k < |args| ==> NoNul(ts[k])
    ensures forall k :: 0 <= k < |args| && args[k] <= |mem| ==>
              args[k] + |ts[k]| <= |mem| && ts[k] == mem[args[k]..args[k] + |ts[k]|] && (args[k] + |ts[k]| < |mem| ==> mem[args[k] + |ts[k]|] == NUL)
  {
    seq(|args|, k requires 0 <= k < |args| => CStr(mem, args[k]))
  }

  /** The reply line `"%d"` or `"%d %s"` (the latter when the handler wrote text). */
  function ReplyLine(ret: Int32, reply: Str): (r: Str)
    ensures Dec(ret) <= r
    ensures reply == [] ==> r == Dec(ret)
    ensures reply != [] ==> |r| == |Dec(ret)| + 1 + |reply| && r[|Dec(ret)|] == ' ' && r[|Dec(ret)| + 1..] == reply
    ensures NoNul(reply) ==> NoNul(r)
  {
    if reply != [] then Dec(ret) + [' '] + reply else Dec(ret)
  }

  /** A reply line is far shorter than the request buffer. */
  lemma ReplyLineShort(ret: Int32, reply: Str)
    requires |reply| < REPLY_MAX
    ensures |ReplyLine(ret, reply)| <= 11 + 1 + 255 < BUFFER_MAX
  {
    DecLength32(ret);
  }

  /** The client's reading of a reply line: the code up to the first space, the text after it. */
  function DecodeReply(line: Str): Option<(int, Str)>
  {
    var i := FirstSpace(line, 0);
    match ParseDec(line[..i])
    case None => None
    case Some(v) => Some((v, if i < |line| then line[i + 1..] else []))
  }

  function FirstSpace(s: Str, from: nat): (i: nat)
    requires from <= |s|
    decreases |s| - from
    ensures from <= i <= |s| && (i < |s| ==> s[i] == ' ')
    ensures forall k :: from <= k < i ==> s[k] != ' '
  {
    if from == |s| || s[from] == ' ' then from else FirstSpace(s, from + 1)
  }

  /** Every reply line decodes to the result code and text it was built from. */
  lemma ReplyRoundTrip(ret: Int32, reply: Str)
    ensures DecodeReply(ReplyLine(ret, reply)) == Some((ret as int, reply))
  {
    var d := Dec(ret);
    var line := ReplyLine(ret, reply);
    assert line[..|d|] == d;
    assert forall k :: 0 <= k < |d| ==> line[k] == d[k] && line[k] != ' ';
    assert reply != [] ==> line[|d|] == ' ';
    assert FirstSpace(line, 0) == |d|;
    DecRoundTrip(ret);
    if reply != [] {
      assert line[|d| + 1..] == reply;
    }
  }

  /** The 2-byte length prefix in host (little-endian) byte order. */
  function Header(count: nat): (h: Str)
    requires count < 0x1_0000
    ensures |h| == 2
  {
    [(count % 256) as char, (count / 256) as char]
  }

  function HeaderValue(lo: Byte, hi: Byte): (count: nat)
    ensures count < 0x1_0000
  {
    lo as int + 256 * hi as int
  }

  /** The length prefix reads back as the count it encodes. */
  lemma {:induction false} HeaderRoundTrip(count: nat)
    requires count < 0x1_0000
    ensures HeaderValue(Header(count)[0], Header(count)[1]) == count
  {
  }

  /**
   * What one `execute` call leaves behind: the buffer, the cursor the
   * reply was written at, the result code and the bytes sent after the
   * length prefix. `Undefined`: the C code reads or writes outside `buf`.
   */
  datatype Exchange = Answered(mem: seq<Byte>, cursor: nat, ret: Int32, sent: Str) | Undefined

  /** Result code and handler reply after tokenising: -1 and nothing when the scan gave up. */
  function Outcome(mem: seq<Byte>, ext: External): (out: (Int32, Str))
    requires Tokens(mem).Scanned?
    ensures |out.1| < REPLY_MAX && NoNul(out.1)
    ensures Tokens(mem).tooMany ==> out == (-1, [])
  {
    var s := Tokens(mem);
    if s.tooMany then (-1, []) else Dispatch(ArgStrings(s.mem, s.args), ext)
  }

  /**
   * Lines 232-286 as a function of the buffer: tokenise, dispatch unless
   * there were too many tokens, `snprintf(cmd, BUFFER_MAX, ...)` the
   * reply at the cursor, clamp its length to BUFFER_MAX and send that many
   * bytes from the cursor.
   */
  function Respond(mem: seq<Byte>, ext: External): (x: Exchange)
    ensures x.Answered? ==> |x.mem| == |mem| && x.cursor + |x.sent| <= |mem|
  {
    var s := Tokens(mem);
    if s.Overrun? then Undefined
    else
      var out := Outcome(mem, ext);
      Place(s.mem, s.cursor, out.0, ReplyLine(out.0, out.1))
  }

  /**
   * Lines 278-285 after the command ran: `snprintf(cmd, BUFFER_MAX, ...)`
   * at `cursor`, the count clamped to BUFFER_MAX, and that many bytes
   * sent from `cursor`; `Undefined` when either reaches past `mem`.
   */
  function Place(mem: seq<Byte>, cursor: nat, ret: Int32, line: Str): (x: Exchange)
    ensures x.Answered? ==> |x.mem| == |mem| && x.cursor + |x.sent| <= |mem|
  {
    var written := Snprintf(line, BUFFER_MAX);
    var count := Min(|line|, BUFFER_MAX);
    if cursor + |written| + 1 > |mem| || cursor + count > |mem| then Undefined
    else
      var m := mem[..cursor] + written + [NUL] + mem[cursor + |written| + 1..];
      Answered(m, cursor, ret, m[cursor..cursor + count])
  }

  /** A line shorter than the buffer is placed unclamped whenever it fits after the cursor. */
  lemma PlaceShort(mem: seq<Byte>, cursor: nat, ret: Int32, line: Str)
    requires |line| < BUFFER_MAX
    ensures Place(mem, cursor, ret, line).Answered? <==> cursor + |line| + 1 <= |mem|
    ensures cursor + |line| + 1 <= |mem| ==>
              Place(mem, cursor, ret, line) ==
              Answered(mem[..cursor] + line + [NUL] + mem[cursor + |line| + 1..], cursor, ret, line)
  {
    if cursor + |line| + 1 <= |mem| {
      var m := mem[..cursor] + line + [NUL] + mem[cursor + |line| + 1..];
      assert m[cursor..cursor + |line|] == line;
    }
  }

  /** Writing `w` at `cursor` keeps the bytes before it. */
  lemma PrefixKept(mem: seq<Byte>, cursor: nat, w: Str)
    requires cursor + |w| <= |mem|
    ensures (mem[..cursor] + w + mem[cursor + |w|..])[..cursor] == mem[..cursor]
  {
  }

  /**
   * When the reply fits, exactly the reply line is sent and the bytes
   * before the cursor are kept.
   */
  lemma RespondSendsLine(mem: seq<Byte>, ext: External)
    requires Respond(mem, ext).Answered?
    ensures var x := Respond(mem, ext);
            var s := Tokens(mem);
            var out := Outcome(mem, ext);
            x.sent == ReplyLine(out.0, out.1) && x.ret == out.0 &&
            x.mem[..x.cursor] == s.mem[..x.cursor]
  {
    var s := Tokens(mem);
    assert !s.Overrun?;
    var out := Outcome(mem, ext);
    var line := ReplyLine(out.0, out.1);
    ReplyLineShort(out.0, out.1);
    assert Respond(mem, ext) == Place(s.mem, s.cursor, out.0, line);
    PlaceShort(s.mem, s.cursor, out.0, line);
    PrefixKept(s.mem, s.cursor, line + [NUL]);
  }

  /**
   * The request is answered even when it has too many tokens: no handler
   * runs and the reply line is "-1" (provided it fits after the cursor).
   */
  lemma TooManyStillAnswers(mem: seq<Byte>, ext: External)
    requires Tokens(mem).Scanned? && Tokens(mem).tooMany
    requires Tokens(mem).cursor + 3 <= |mem|
    ensures Respond(mem, ext).Answered? && Respond(mem, ext).ret == -1
    ensures Respond(mem, ext).sent == ['-', '1']
  {
    assert Dec(-1) == ['-'] + Digits(1);
    RespondSendsLine(mem, ext);
  }

  /**
   * `execute` on the buffer: tokenise in place, run the command, write
   * the reply line at the cursor, then send the length prefix and the
   * reply with `writex`. Returns 0 when both writes succeeded (the
   * connection stays open), -1 otherwise. `undefined` reports that the C
   * code would have read or written past `buf`.
   */
  method ExecuteRequest(buf: array<Byte>, ch: Channel, ext: External) returns (r: int, undefined: bool, ch': Channel)
    requires buf.Length == BUFFER_MAX
    modifies buf
    ensures undefined <==> Respond(old(buf[..]), ext).Undefined?
    ensures undefined ==> ch' == ch
    ensures !undefined ==>
              var x := Respond(old(buf[..]), ext);
              buf[..] == x.mem && (r == 0 || r == -1) &&
              WrotePrefix(ch, ch', Header(|x.sent|) + x.sent) &&
              (r == 0 <==> ch'.outbox == ch.outbox + (Header(|x.sent|) + x.sent))
    ensures Extends(ch, ch') && (r == 0 ==> ch'.next <= |ch.script|)
  {
    ghost var mem := buf[..];
    var overrun, cursor, ret, line := Answer(buf, ext);
    if overrun {
      return -1, true, ch;
    }
    var written := Snprintf(line, BUFFER_MAX);
    var count := Min(|line|, BUFFER_MAX);
    PlaceShort(buf[..], cursor, ret, line);
    if cursor + |written| + 1 > BUFFER_MAX || cursor + count > BUFFER_MAX {
      // snprintf or the send would touch bytes past the buffer
      return -1, true, ch;
    }
    WriteLine(buf, cursor, written);
    var sent := buf[cursor..cursor + count];
    r, ch' := SendFrame(ch, sent);
    undefined := false;
    assert ch'.outbox[..|ch.outbox|] == ch.outbox;
  }

  /** `ch'` is `ch` later on the connection, and the bytes already written stay written. */
  predicate Extends(ch: Channel, ch': Channel)
  {
    Later(ch, ch') && |ch.outbox| <= |ch'.outbox| && ch'.outbox[..|ch.outbox|] == ch.outbox
  }

  lemma ExtendsTrans(a: Channel, b: Channel, c: Channel)
    requires Extends(a, b) && Extends(b, c)
    ensures Extends(a, c)
  {
    assert c.outbox[..|a.outbox|] == c.outbox[..|b.outbox|][..|a.outbox|];
  }

  /**
   * Lines 244-276: tokenise in place and, unless the scan gave up, run
   * the command; returns the cursor, the result code and the reply line.
   */
  method Answer(buf: array<Byte>, ext: External) returns (overrun: bool, cursor: nat, ret: Int32, line: Str)
    modifies buf
    ensures overrun <==> Tokens(old(buf[..])).Overrun?
    ensures !overrun ==>
              var out := Outcome(old(buf[..]), ext);
              buf[..] == Tokens(old(buf[..])).mem && cursor == Tokens(old(buf[..])).cursor &&
              ret == out.0 && line == ReplyLine(out.0, out.1) && |line| < BUFFER_MAX
  {
    var args, tooMany;
    cursor, args, tooMany, overrun := Tokenize(buf);
    var reply: Str := [];
    ret := -1;
    if overrun {
      return overrun, cursor, ret, reply;
    }
    if !tooMany {
      ret, reply := RunCommand(ArgStrings(buf[..], args), ext);
    }
    line := ReplyLine(ret, reply);
    ReplyLineShort(ret, reply);
  }

  /** `snprintf` of the reply line at `cursor`: the line and its terminating NUL. */
  method WriteLine(buf: array<Byte>, cursor: nat, line: Str)
    requires cursor + |line| + 1 <= buf.Length
    modifies buf
    ensures buf[..] == old(buf[..cursor]) + line + [NUL] + old(buf[cursor + |line| + 1..])
  {
    forall j | 0 <= j < |line| {
      buf[cursor + j] := line[j];
    }
    buf[cursor + |line|] := NUL;
  }

  /** `ch'` differs from `ch` by a prefix of `data` appended to the outbox. */
  predicate WrotePrefix(ch: Channel, ch': Channel, data: Str)
  {
    ch'.inbox == ch.inbox && |ch.outbox| <= |ch'.outbox| <= |ch.outbox| + |data| &&
    ch'.outbox == ch.outbox + data[..|ch'.outbox| - |ch.outbox|]
  }

  /** A prefix write is complete exactly when its length is. */
  lemma WrotePrefixFull(ch: Channel, ch': Channel, data: Str)
    requires WrotePrefix(ch, ch', data)
    ensures ch'.outbox == ch.outbox + data <==> |ch'.outbox| == |ch.outbox| + |data|
  {
    if |ch'.outbox| == |ch.outbox| + |data| {
      assert data[..|data|] == data;
    }
  }

  lemma WrotePrefixExtend(ch: Channel, ch': Channel, data: Str, more: Str)
    requires WrotePrefix(ch, ch', data)
    ensures WrotePrefix(ch, ch', data + more)
  {
    var j := |ch'.outbox| - |ch.outbox|;
    assert (data + more)[..j] == data[..j];
  }

  lemma WrotePrefixThen(ch: Channel, mid: Channel, ch': Channel, first: Str, data: Str)
    requires mid.inbox == ch.inbox && mid.outbox == ch.outbox + first
    requires WrotePrefix(mid, ch', data)
    ensures WrotePrefix(ch, ch', first + data)
  {
    var k := |ch'.outbox| - |mid.outbox|;
    assert (first + data)[..|first| + k] == first + data[..k];
  }

  /**
   * Lines 282-285: the 2-byte length, then the reply bytes, each with
   * `writex`; 0 only when both were written in full.
   */
  method SendFrame(ch: Channel, sent: Str) returns (r: int, ch': Channel)
    requires |sent| < 0x1_0000
    ensures r == 0 || r == -1
    ensures WrotePrefix(ch, ch', Header(|sent|) + sent)
    ensures r == 0 <==> ch'.outbox == ch.outbox + (Header(|sent|) + sent)
    ensures Later(ch, ch') && (r == 0 ==> ch'.next <= |ch.script|)
  {
    var h := Header(|sent|);
    assert |h| == 2;
    var r1, ch1 := WriteX(ch, h, 2);
    assert h[..2] == h;
    if r1 != 0 {
      WrotePrefixExtend(ch, ch1, h, sent);
      WrotePrefixFull(ch, ch1, h + sent);
      return -1, ch1;
    }
    assert ch1.outbox == ch.outbox + h;
    var r2, ch2 := WriteX(ch1, sent, |sent|);
    assert WrotePrefix(ch1, ch2, sent);
    WrotePrefixThen(ch, ch1, ch2, h, sent);
    WrotePrefixFull(ch, ch2, h + sent);
    r, ch' := if r2 == 0 then 0 else -1, ch2;
  }

  /** What reading one request frame ended with (lines 759-772). */
  datatype Frame = Request(count: nat) | BadSize(size: nat) | ReadFailed

  /**
   * One request of the connection loop in `main`: the 2-byte length with
   * `readx`, the range check 1 <= count < BUFFER_MAX, the payload with
   * `readx` straight into the buffer, then the terminating NUL.
   */
  method ReadRequest(buf: array<Byte>, ch: Channel) returns (f: Frame, ch': Channel)
    requires buf.Length == BUFFER_MAX
    modifies buf
    ensures ch'.outbox == ch.outbox && Later(ch, ch') && ch.next < ch'.next
    ensures Extends(ch, ch')
    ensures f.Request? ==> ch'.next <= |ch.script|
    ensures f.Request? ==>
              1 <= f.count < BUFFER_MAX && |ch.inbox| >= 2 + f.count &&
              HeaderValue(ch.inbox[0], ch.inbox[1]) == f.count &&
              buf[..] == ch.inbox[2..2 + f.count] + [NUL] + old(buf[f.count + 1..]) &&
              ch'.inbox == ch.inbox[2 + f.count..]
    ensures f.BadSize? ==>
              |ch.inbox| >= 2 && f.size == HeaderValue(ch.inbox[0], ch.inbox[1]) &&
              (f.size < 1 || f.size >= BUFFER_MAX) &&
              ch'.inbox == ch.inbox[2..] && buf[..] == old(buf[..])
    ensures |ch'.inbox| <= |ch.inbox| && ch'.inbox == ch.inbox[|ch.inbox| - |ch'.inbox|..]
    ensures var h := ReadLoop(ch.script, ch.next, |ch.inbox|, 2);
            h.code != 0 ==> f == ReadFailed && ch'.next == h.next && |ch'.inbox| + h.moved == |ch.inbox|
    ensures var h := ReadLoop(ch.script, ch.next, |ch.inbox|, 2);
            h.code == 0 ==>
              |ch.inbox| >= 2 &&
              var c := HeaderValue(ch.inbox[0], ch.inbox[1]);
              ((c < 1 || c >= BUFFER_MAX) ==> f == BadSize(c) && ch'.next == h.next) &&
              (1 <= c < BUFFER_MAX ==>
                 var p := ReadLoop(ch.script, h.next, |ch.inbox| - 2, c);
                 ch'.next == p.next && |ch'.inbox| + p.moved + 2 == |ch.inbox| &&
                 (p.code == 0 <==> f == Request(c)) && (p.code != 0 <==> f == ReadFailed))
  {
    var r, hdr;
    r, hdr, ch' := ReadX(ch, 2);
    if r != 0 {
      return ReadFailed, ch';
    }
    var count := HeaderValue(hdr[0], hdr[1]);
    if count < 1 || count >= BUFFER_MAX {
      return BadSize(count), ch';
    }
    ghost var mid := ch';
    var got;
    r, got, ch' := ReadX(ch', count);
    forall i | 0 <= i < |got| {
      buf[i] := got[i];
    }
    if r != 0 {
      return ReadFailed, ch';
    }
    buf[count] := NUL;
    assert ch.inbox[2..2 + count] == got;
    f := Request(count);
  }

  /**
   * The per-connection loop of `main` (lines 757-775): read a request,
   * execute it, and stop at the first failed read, invalid length or
   * failed reply. A request on which the C code would leave `buf` also
   * ends the model's connection, since nothing after it is defined.
   */
  method ServeConnection(buf: array<Byte>, ch: Channel, ext: External) returns (ch': Channel)
    requires buf.Length == BUFFER_MAX
    modifies buf
    ensures Extends(ch, ch')
  {
    ch' := ch;
    while true
      invariant Extends(ch, ch')
      decreases |ch.script| - ch'.next
    {
      var f, r, undefined;
      ghost var before := ch';
      f, ch' := ReadRequest(buf, ch');
      ExtendsTrans(ch, before, ch');
      if !f.Request? {
        return;
      }
      ghost var middle := ch';
      r, undefined, ch' := ExecuteRequest(buf, ch', ext);
      ExtendsTrans(ch, middle, ch');
      if r != 0 || undefined {
        return;
      }
    }
  }
}
