/**
 * The request handling `execute` evidently intends, with the two defects
 * shown in `RequestLines` repaired:
 *
 *  - the tokeniser examines the byte right after a separator (one `cmd++`
 *    per byte instead of two after a separator), so it never steps over the
 *    terminating NUL;
 *  - the reply is written at the start of the `BUFFER_MAX`-byte buffer,
 *    which `snprintf(cmd, BUFFER_MAX, ...)` presumes, not at the
 *    tokeniser's cursor.
 *
 * With both repairs every NUL-terminated request line is answered with the
 * reply to exactly its `Split` tokens.
 */
module Corrected {
  import opened CString
  import opened Commands
  import opened Execute
  import opened RequestLines

  /**
   * The tokenising loop with the second `cmd++` after a separator removed.
   * `Overrun`: the buffer holds no NUL from `cmd` on.
   */
  function ScanFixed(mem: seq<Byte>, cmd: nat, args: seq<nat>): (s: Scan)
    requires 1 <= |args| <= TOKEN_MAX && cmd <= |mem| && ArgsBefore(args, cmd)
    decreases |mem| - cmd
    ensures s.Scanned? ==> |s.mem| == |mem| && |args| <= |s.args| <= TOKEN_MAX + 1
  {
    if cmd == |mem| then Overrun
    else if mem[cmd] == NUL then Scanned(mem, cmd, args, false)
    else if IsSpace(mem[cmd]) then
      var args' := args + [cmd + 1];
      if |args'| == TOKEN_MAX + 1 then Scanned(mem[cmd := NUL], cmd + 1, args', true)
      else ScanFixed(mem[cmd := NUL], cmd + 1, args')
    else ScanFixed(mem, cmd + 1, args)
  }

  /** Blanking a separator and moving past it matches the blanked image. */
  lemma BlankPastSpace(mem: seq<Byte>, cmd: nat, k: nat)
    requires cmd < k <= |mem| && IsSpace(mem[cmd])
    ensures mem[cmd := NUL][..cmd + 1] + Blank(mem[cmd + 1..k]) == mem[..cmd] + Blank(mem[cmd..k])
  {
    BlankCons(mem[cmd..k]);
    assert mem[cmd..k][1..] == mem[cmd + 1..k];
    assert mem[cmd := NUL][..cmd + 1] == mem[..cmd] + [NUL];
  }

  lemma StartsPastSpace(mem: seq<Byte>, k: nat, cmd: nat, args: seq<nat>)
    requires cmd < k <= |mem| && IsSpace(mem[cmd])
    ensures mem[cmd := NUL][k..] == mem[k..]
    ensures args + [cmd + 1] + Starts(mem[cmd + 1..k], cmd + 1) == args + Starts(mem[cmd..k], cmd)
  {
    var q := mem[cmd..k];
    assert q[1..] == mem[cmd + 1..k];
    assert Starts(q, cmd) == [cmd + 1] + Starts(mem[cmd + 1..k], cmd + 1);
  }

  /**
   * The repaired tokeniser on any stretch `mem[cmd..k]` without NUL that
   * ends at a NUL: it gives up exactly when the separators push the count
   * to TOKEN_MAX; otherwise it stops at `k`, with every separator blanked
   * and the offset after each recorded.
   */
  lemma {:induction false} ScanFixedLine(mem: seq<Byte>, k: nat, cmd: nat, args: seq<nat>)
    requires cmd <= k < |mem| && mem[k] == NUL && NoNul(mem[cmd..k])
    requires 1 <= |args| <= TOKEN_MAX && ArgsBefore(args, cmd)
    decreases k - cmd, 1
    ensures ScanFixed(mem, cmd, args).Scanned?
    ensures ScanFixed(mem, cmd, args).tooMany <==> |args| - 1 + CountSpaces(mem[cmd..k]) >= TOKEN_MAX
    ensures !ScanFixed(mem, cmd, args).tooMany ==>
              ScanFixed(mem, cmd, args) ==
              Scanned(mem[..cmd] + Blank(mem[cmd..k]) + mem[k..], k, args + Starts(mem[cmd..k], cmd), false)
  {
    if cmd == k {
      assert mem[..cmd] + Blank(mem[cmd..k]) + mem[k..] == mem;
      assert args + Starts(mem[cmd..k], cmd) == args;
    } else if !IsSpace(mem[cmd]) {
      FixedPastWord(mem, k, cmd, args);
    } else {
      FixedPastSpace(mem, k, cmd, args);
    }
  }

  lemma {:induction false} FixedPastWord(mem: seq<Byte>, k: nat, cmd: nat, args: seq<nat>)
    requires cmd < k < |mem| && mem[k] == NUL && NoNul(mem[cmd..k]) && !IsSpace(mem[cmd])
    requires 1 <= |args| <= TOKEN_MAX && ArgsBefore(args, cmd)
    decreases k - cmd, 0
    ensures ScanFixed(mem, cmd, args).Scanned?
    ensures ScanFixed(mem, cmd, args).tooMany <==> |args| - 1 + CountSpaces(mem[cmd..k]) >= TOKEN_MAX
    ensures !ScanFixed(mem, cmd, args).tooMany ==>
              ScanFixed(mem, cmd, args) ==
              Scanned(mem[..cmd] + Blank(mem[cmd..k]) + mem[k..], k, args + Starts(mem[cmd..k], cmd), false)
  {
    var q := mem[cmd..k];
    assert mem[cmd] == q[0] != NUL;
    assert q[1..] == mem[cmd + 1..k];
    assert CountSpaces(q) == CountSpaces(q[1..]);
    assert Starts(q, cmd) == Starts(q[1..], cmd + 1);
    assert ScanFixed(mem, cmd, args) == ScanFixed(mem, cmd + 1, args);
    ScanFixedLine(mem, k, cmd + 1, args);
    BlankPastWord(mem, cmd, k);
  }

  lemma {:induction false} FixedPastSpace(mem: seq<Byte>, k: nat, cmd: nat, args: seq<nat>)
    requires cmd < k < |mem| && mem[k] == NUL && NoNul(mem[cmd..k]) && IsSpace(mem[cmd])
    requires 1 <= |args| <= TOKEN_MAX && ArgsBefore(args, cmd)
    decreases k - cmd, 0
    ensures ScanFixed(mem, cmd, args).Scanned?
    ensures ScanFixed(mem, cmd, args).tooMany <==> |args| - 1 + CountSpaces(mem[cmd..k]) >= TOKEN_MAX
    ensures !ScanFixed(mem, cmd, args).tooMany ==>
              ScanFixed(mem, cmd, args) ==
              Scanned(mem[..cmd] + Blank(mem[cmd..k]) + mem[k..], k, args + Starts(mem[cmd..k], cmd), false)
  {
    var q := mem[cmd..k];
    assert mem[cmd] == q[0] != NUL;
    assert q[1..] == mem[cmd + 1..k];
    assert CountSpaces(q) == 1 + CountSpaces(q[1..]);
    var args' := args + [cmd + 1];
    if |args'| < TOKEN_MAX + 1 {
      var mem' := mem[cmd := NUL];
      assert ScanFixed(mem, cmd, args) == ScanFixed(mem', cmd + 1, args');
      assert mem'[cmd + 1..k] == q[1..];
      ScanFixedLine(mem', k, cmd + 1, args');
      BlankPastSpace(mem, cmd, k);
      StartsPastSpace(mem, k, cmd, args);
    }
  }

  /**
   * Lines 232-286 with both repairs: tokenise with `ScanFixed`, dispatch
   * unless there were too many tokens, and write and send the reply from
   * the start of the buffer.
   */
  function RespondFixed(mem: seq<Byte>, ext: External): (x: Exchange)
    ensures x.Answered? ==> |x.mem| == |mem| && x.cursor == 0 && |x.sent| <= |mem|
  {
    var s := ScanFixed(mem, 0, [0]);
    if s.Overrun? then Undefined
    else
      var out := if s.tooMany then (-1, []) else Dispatch(ArgStrings(s.mem, s.args), ext);
      Place(s.mem, 0, out.0, ReplyLine(out.0, out.1))
  }

  /**
   * Every request line the frame loop can hand over (its bytes up to the
   * first NUL in the buffer) is answered, with the reply to its `Split`
   * tokens.
   */
  lemma RespondFixedServes(mem: seq<Byte>, k: nat, ext: External)
    requires |mem| == BUFFER_MAX && k < |mem| && mem[k] == NUL && NoNul(mem[..k])
    ensures RespondFixed(mem, ext).Answered?
    ensures RespondFixed(mem, ext).sent == Serve(mem[..k], ext)
  {
    var p := mem[..k];
    assert mem[0..k] == p;
    ScanFixedLine(mem, k, 0, [0]);
    var s := ScanFixed(mem, 0, [0]);
    if !s.tooMany {
      assert mem[..0] + Blank(p) + mem[k..] == [] + Blank(p) + mem[k..];
      BlankedTokens([], p, mem[k..]);
    }
    var out := if s.tooMany then (-1, []) else Dispatch(ArgStrings(s.mem, s.args), ext);
    ReplyLineShort(out.0, out.1);
    PlaceShort(s.mem, 0, out.0, ReplyLine(out.0, out.1));
  }

  /** "ping " has two tokens, "ping" and an empty one, and ping takes no arguments. */
  lemma ServeTrailingPing(ext: External)
    ensures Serve("ping ", ext) == ['-', '1']
  {
    var ts: seq<Str> := ["ping", []];
    assert Join(ts) == "ping ";
    SplitJoin(ts);
    PingAnswers(ts, ext);
    assert Dec(-1) == ['-'] + Digits(1);
  }

  /** In particular a line with a separator at its end no longer reads stale bytes. */
  lemma TrailingSpaceFixed(ext: External)
    ensures var mem: seq<Byte> := ['p', 'i', 'n', 'g', ' ', NUL, 'x', ' ', 'y', NUL] + seq(BUFFER_MAX - 10, i => NUL);
            RespondFixed(mem, ext).Answered? && RespondFixed(mem, ext).sent == ['-', '1']
  {
    var mem: seq<Byte> := ['p', 'i', 'n', 'g', ' ', NUL, 'x', ' ', 'y', NUL] + seq(BUFFER_MAX - 10, i => NUL);
    assert mem[..5] == "ping ";
    RespondFixedServes(mem, 5, ext);
    ServeTrailingPing(ext);
  }
}
