/**
 * How `execute` treats the request line, compared with the line a client
 * writes: tokens joined by single spaces (`CString.Join`), which
 * `CString.Split` takes apart again.
 *
 * On a well-spaced line (no two white-space bytes in a row, none at the
 * end) the in-place tokeniser finds exactly `Split`'s tokens. Elsewhere
 * it does not, and the lemmas at the end exhibit the inputs.
 */
module RequestLines {
  import opened CString
  import opened Channel
  import opened Commands
  import opened Execute

  /** No two white-space bytes in a row and no white space at the end. */
  predicate WellSpaced(q: Str)
  {
    (forall i :: 0 <= i < |q| - 1 ==> !(IsSpace(q[i]) && IsSpace(q[i + 1]))) &&
    (q != [] ==> !IsSpace(q[|q| - 1]))
  }

  /** `q` with every white-space byte overwritten by NUL. */
  function Blank(q: Str): (b: Str)
    ensures |b| == |q|
  {
    seq(|q|, i requires 0 <= i < |q| => if IsSpace(q[i]) then NUL else q[i])
  }

  /** The offsets just past each white-space byte of `q`, where `q` starts at offset `base`. */
  function Starts(q: Str, base: nat): seq<nat>
  {
    if q == [] then [] else (if IsSpace(q[0]) then [base + 1] else []) + Starts(q[1..], base + 1)
  }

  /** The reply the daemon evidently means to give to the request line `p`. */
  function Serve(p: Str, ext: External): Str
  {
    var ts := Split(p);
    var out := if |ts| - 1 >= TOKEN_MAX then (-1, []) else Dispatch(ts, ext);
    ReplyLine(out.0, out.1)
  }

  /** That reply always fits in the request buffer together with its NUL. */
  lemma ServeFits(p: Str, ext: External)
    ensures |Serve(p, ext)| + 1 <= BUFFER_MAX
  {
    var ts := Split(p);
    var out := if |ts| - 1 >= TOKEN_MAX then (-1, []) else Dispatch(ts, ext);
    ReplyLineShort(out.0, out.1);
  }

  lemma WellSpacedTail(q: Str, d: nat)
    requires WellSpaced(q) && d <= |q|
    ensures WellSpaced(q[d..])
  {
    var t := q[d..];
    forall i | 0 <= i < |t| - 1
      ensures !(IsSpace(t[i]) && IsSpace(t[i + 1]))
    {
      assert t[i] == q[d + i] && t[i + 1] == q[d + i + 1];
    }
  }

  lemma BlankCons(q: Str)
    requires q != []
    ensures Blank(q) == [if IsSpace(q[0]) then NUL else q[0]] + Blank(q[1..])
  {
  }

  /** Moving past a word byte leaves the blanked image unchanged. */
  lemma BlankPastWord(mem: seq<Byte>, cmd: nat, k: nat)
    requires cmd < k <= |mem| && !IsSpace(mem[cmd])
    ensures mem[..cmd + 1] + Blank(mem[cmd + 1..k]) == mem[..cmd] + Blank(mem[cmd..k])
  {
    BlankCons(mem[cmd..k]);
    assert mem[cmd..k][1..] == mem[cmd + 1..k];
    assert mem[..cmd + 1] == mem[..cmd] + [mem[cmd]];
  }

  /** Blanking a separator and moving past the byte after it matches the blanked image. */
  lemma BlankPastSeparator(mem: seq<Byte>, cmd: nat, k: nat)
    requires cmd + 1 < k <= |mem| && IsSpace(mem[cmd]) && !IsSpace(mem[cmd + 1])
    ensures mem[cmd := NUL][..cmd + 2] + Blank(mem[cmd + 2..k]) == mem[..cmd] + Blank(mem[cmd..k])
  {
    var q := mem[cmd..k];
    BlankCons(q);
    BlankCons(q[1..]);
    assert q[1..][1..] == mem[cmd + 2..k];
    assert mem[cmd := NUL][..cmd + 2] == mem[..cmd] + [NUL, mem[cmd + 1]];
  }

  /**
   * The tokeniser on a well-spaced stretch `mem[cmd..k]` ending at a NUL:
   * it gives up exactly when the separators push the count to TOKEN_MAX;
   * otherwise it stops at `k`, having blanked the separators and recorded
   * the offset after each of them.
   */
  lemma {:induction false} ScanWellSpaced(mem: seq<Byte>, k: nat, cmd: nat, args: seq<nat>)
    requires cmd <= k < |mem| && mem[k] == NUL
    requires NoNul(mem[cmd..k]) && WellSpaced(mem[cmd..k])
    requires 1 <= |args| <= TOKEN_MAX && ArgsBefore(args, cmd)
    decreases k - cmd, 1
    ensures ScanFrom(mem, cmd, args).Scanned?
    ensures ScanFrom(mem, cmd, args).tooMany <==> |args| - 1 + CountSpaces(mem[cmd..k]) >= TOKEN_MAX
    ensures ScanFrom(mem, cmd, args).tooMany ==> ScanFrom(mem, cmd, args).cursor <= k
    ensures !ScanFrom(mem, cmd, args).tooMany ==>
              ScanFrom(mem, cmd, args) ==
              Scanned(mem[..cmd] + Blank(mem[cmd..k]) + mem[k..], k, args + Starts(mem[cmd..k], cmd), false)
  {
    if cmd == k {
      assert mem[..cmd] + Blank(mem[cmd..k]) + mem[k..] == mem;
      assert args + Starts(mem[cmd..k], cmd) == args;
    } else if !IsSpace(mem[cmd]) {
      ScanPastWord(mem, k, cmd, args);
    } else {
      ScanPastSeparator(mem, k, cmd, args);
    }
  }

  /** The step of `ScanWellSpaced` over a byte of a word. */
  lemma {:induction false} ScanPastWord(mem: seq<Byte>, k: nat, cmd: nat, args: seq<nat>)
    requires cmd <= k < |mem| && mem[k] == NUL
    requires NoNul(mem[cmd..k]) && WellSpaced(mem[cmd..k])
    requires 1 <= |args| <= TOKEN_MAX && ArgsBefore(args, cmd)
    requires cmd < k && !IsSpace(mem[cmd])
    decreases k - cmd, 0
    ensures ScanFrom(mem, cmd, args).Scanned?
    ensures ScanFrom(mem, cmd, args).tooMany <==> |args| - 1 + CountSpaces(mem[cmd..k]) >= TOKEN_MAX
    ensures ScanFrom(mem, cmd, args).tooMany ==> ScanFrom(mem, cmd, args).cursor <= k
    ensures !ScanFrom(mem, cmd, args).tooMany ==>
              ScanFrom(mem, cmd, args) ==
              Scanned(mem[..cmd] + Blank(mem[cmd..k]) + mem[k..], k, args + Starts(mem[cmd..k], cmd), false)
  {
    var q := mem[cmd..k];
    assert mem[cmd] == q[0] != NUL;
    assert q[1..] == mem[cmd + 1..k];
    assert CountSpaces(q) == CountSpaces(q[1..]);
    assert Starts(q, cmd) == Starts(q[1..], cmd + 1);
    assert ScanFrom(mem, cmd, args) == ScanFrom(mem, cmd + 1, args);
    WellSpacedTail(q, 1);
    ScanWellSpaced(mem, k, cmd + 1, args);
    BlankPastWord(mem, cmd, k);
  }

  /** The step of `ScanWellSpaced` over a separator and the byte after it. */
  lemma {:induction false} ScanPastSeparator(mem: seq<Byte>, k: nat, cmd: nat, args: seq<nat>)
    requires cmd <= k < |mem| && mem[k] == NUL
    requires NoNul(mem[cmd..k]) && WellSpaced(mem[cmd..k])
    requires 1 <= |args| <= TOKEN_MAX && ArgsBefore(args, cmd)
    requires cmd < k && IsSpace(mem[cmd])
    decreases k - cmd, 0
    ensures ScanFrom(mem, cmd, args).Scanned?
    ensures ScanFrom(mem, cmd, args).tooMany <==> |args| - 1 + CountSpaces(mem[cmd..k]) >= TOKEN_MAX
    ensures ScanFrom(mem, cmd, args).tooMany ==> ScanFrom(mem, cmd, args).cursor <= k
    ensures !ScanFrom(mem, cmd, args).tooMany ==>
              ScanFrom(mem, cmd, args) ==
              Scanned(mem[..cmd] + Blank(mem[cmd..k]) + mem[k..], k, args + Starts(mem[cmd..k], cmd), false)
  {
    var q := mem[cmd..k];
    assert mem[cmd] == q[0] != NUL;
    assert cmd + 1 < k && !IsSpace(mem[cmd + 1]);
    var args' := args + [cmd + 1];
    var q2 := mem[cmd + 2..k];
    assert q[1..][1..] == q2;
    assert CountSpaces(q) == 1 + CountSpaces(q2);
    if |args'| < TOKEN_MAX + 1 {
      var mem' := mem[cmd := NUL];
      assert ScanFrom(mem, cmd, args) == ScanFrom(mem', cmd + 2, args');
      assert mem'[cmd + 2..k] == q2;
      WellSpacedTail(q, 2);
      assert q[2..] == q2;
      ScanWellSpaced(mem', k, cmd + 2, args');
      BlankPastSeparator(mem, cmd, k);
      StartsPastSeparator(mem, k, cmd, args);
    }
  }

  lemma StartsPastSeparator(mem: seq<Byte>, k: nat, cmd: nat, args: seq<nat>)
    requires cmd + 1 < k <= |mem| && IsSpace(mem[cmd]) && !IsSpace(mem[cmd + 1])
    ensures mem[cmd := NUL][k..] == mem[k..]
    ensures args + [cmd + 1] + Starts(mem[cmd + 2..k], cmd + 2) == args + Starts(mem[cmd..k], cmd)
  {
    var q := mem[cmd..k];
    assert q[1..][1..] == mem[cmd + 2..k];
    assert Starts(q, cmd) == [cmd + 1] + Starts(mem[cmd + 2..k], cmd + 2);
  }

  lemma ArgStringsCons(m: seq<Byte>, a: nat, rest: seq<nat>)
    ensures ArgStrings(m, [a] + rest) == [CStr(m, a)] + ArgStrings(m, rest)
  {
  }

  /**
   * The C strings at the recorded offsets of a blanked line are `Split`'s
   * tokens of the line.
   */
  lemma {:induction false} BlankedTokens(pre: Str, p: Str, tail: Str)
    requires NoNul(p) && tail != [] && tail[0] == NUL
    decreases |p|
    ensures ArgStrings(pre + Blank(p) + tail, [|pre|] + Starts(p, |pre|)) == Split(p)
  {
    var m := pre + Blank(p) + tail;
    var b := |pre|;
    if p == [] {
      assert m[b] == NUL;
      assert CStr(m, b) == [];
      ArgStringsCons(m, b, []);
    } else {
      var pre' := pre + [Blank(p)[0]];
      BlankShift(pre, p, tail);
      BlankedTokens(pre', p[1..], tail);
      var s' := Starts(p[1..], b + 1);
      if IsSpace(p[0]) {
        TokensPastSpace(m, b, p, s');
      } else {
        TokensPastWord(m, b, p, s');
      }
    }
  }

  lemma BlankShift(pre: Str, p: Str, tail: Str)
    requires p != [] && NoNul(p)
    ensures pre + Blank(p) + tail == pre + [Blank(p)[0]] + Blank(p[1..]) + tail
    ensures NoNul(p[1..])
    ensures Blank(p)[0] == if IsSpace(p[0]) then NUL else p[0]
  {
    BlankCons(p);
    assert forall i :: 0 <= i < |p[1..]| ==> p[1..][i] == p[i + 1];
  }

  /** A separator at `b` ends an empty token there and starts the next one at `b + 1`. */
  lemma TokensPastSpace(m: Str, b: nat, p: Str, s': seq<nat>)
    requires p != [] && IsSpace(p[0]) && b < |m| && m[b] == NUL
    requires s' == Starts(p[1..], b + 1)
    requires ArgStrings(m, [b + 1] + s') == Split(p[1..])
    ensures ArgStrings(m, [b] + Starts(p, b)) == Split(p)
  {
    assert Starts(p, b) == [b + 1] + s';
    ArgStringsCons(m, b, [b + 1] + s');
    assert CStr(m, b) == [];
  }

  /** A word byte at `b` is the first byte of the token that continues at `b + 1`. */
  lemma TokensPastWord(m: Str, b: nat, p: Str, s': seq<nat>)
    requires p != [] && !IsSpace(p[0]) && b < |m| && m[b] == p[0] != NUL
    requires s' == Starts(p[1..], b + 1)
    requires ArgStrings(m, [b + 1] + s') == Split(p[1..])
    ensures ArgStrings(m, [b] + Starts(p, b)) == Split(p)
  {
    assert Starts(p, b) == s';
    ArgStringsCons(m, b, s');
    ArgStringsCons(m, b + 1, s');
    assert CStr(m, b) == [p[0]] + CStr(m, b + 1);
  }

  /**
   * On a well-spaced request line `p` (the bytes before the NUL at `k`)
   * whose reply fits after it, `execute` sends exactly `Serve`'s reply.
   */
  lemma RespondWellSpaced(mem: seq<Byte>, k: nat, ext: External)
    requires k < |mem| && mem[k] == NUL && NoNul(mem[..k]) && WellSpaced(mem[..k])
    requires k + |Serve(mem[..k], ext)| + 1 <= |mem|
    ensures Respond(mem, ext).Answered? && Respond(mem, ext).sent == Serve(mem[..k], ext)
  {
    var p := mem[..k];
    assert mem[0..k] == p;
    ScanWellSpaced(mem, k, 0, [0]);
    var s := Tokens(mem);
    if !s.tooMany {
      assert mem[..0] + Blank(p) + mem[k..] == [] + Blank(p) + mem[k..];
      BlankedTokens([], p, mem[k..]);
    }
    var out := Outcome(mem, ext);
    ReplyLineShort(out.0, out.1);
    PlaceShort(s.mem, s.cursor, out.0, ReplyLine(out.0, out.1));
  }

  /**
   * A well-spaced request line whose reply does not fit between its NUL
   * and the end of the buffer: the reply is written past the buffer.
   */
  lemma RespondOverflows(mem: seq<Byte>, k: nat, ext: External)
    requires k < |mem| && mem[k] == NUL && NoNul(mem[..k]) && WellSpaced(mem[..k])
    requires CountSpaces(mem[..k]) < TOKEN_MAX
    requires k + |Serve(mem[..k], ext)| + 1 > |mem|
    ensures Respond(mem, ext).Undefined?
  {
    var p := mem[..k];
    assert mem[0..k] == p;
    ScanWellSpaced(mem, k, 0, [0]);
    assert mem[..0] + Blank(p) + mem[k..] == [] + Blank(p) + mem[k..];
    BlankedTokens([], p, mem[k..]);
    var s := Tokens(mem);
    var out := Outcome(mem, ext);
    ReplyLineShort(out.0, out.1);
    PlaceShort(s.mem, s.cursor, out.0, ReplyLine(out.0, out.1));
  }

  lemma {:induction false} CountSpacesConcat(a: Str, b: Str)
    ensures CountSpaces(a + b) == CountSpaces(a) + CountSpaces(b)
  {
    if a != [] {
      assert (a + b)[0] == a[0] && (a + b)[1..] == a[1..] + b;
      CountSpacesConcat(a[1..], b);
    } else {
      assert a + b == b;
    }
  }

  lemma {:induction false} CountSpacesNone(w: Str)
    requires NoSpace(w)
    ensures CountSpaces(w) == 0
  {
    if w != [] {
      CountSpacesNone(w[1..]);
    }
  }

  /** A run of word bytes is passed over without any effect on the scan. */
  lemma {:induction false} ScanPastRun(mem: seq<Byte>, cmd: nat, j: nat, args: seq<nat>)
    requires cmd <= j <= |mem|
    requires forall i :: cmd <= i < j ==> mem[i] != NUL && !IsSpace(mem[i])
    requires 1 <= |args| <= TOKEN_MAX && ArgsBefore(args, cmd)
    decreases j - cmd
    ensures ArgsBefore(args, j) && ScanFrom(mem, cmd, args) == ScanFrom(mem, j, args)
  {
    if cmd < j {
      ScanPastRun(mem, cmd + 1, j, args);
    }
  }

  /**
   * Two separators in a row: the byte after the first is never examined,
   * so "a  b" yields one argument " b" where the line has the tokens
   * "a", "" and "b".
   */
  lemma DoubleSpaceMisread()
    ensures var mem: seq<Byte> := ['a', ' ', ' ', 'b', NUL];
            Tokens(mem) == Scanned(mem[1 := NUL], 4, [0, 2], false) &&
            ArgStrings(mem[1 := NUL], [0, 2]) == [['a'], [' ', 'b']] &&
            Split(mem[..4]) == [['a'], [], ['b']]
  {
    var mem: seq<Byte> := ['a', ' ', ' ', 'b', NUL];
    DoubleSpaceScan(mem);
    DoubleSpaceStrings(mem[1 := NUL]);
    var ts: seq<Str> := [['a'], [], ['b']];
    assert Join(ts) == mem[..4];
    SplitJoin(ts);
  }

  lemma DoubleSpaceScan(mem: seq<Byte>)
    requires mem == ['a', ' ', ' ', 'b', NUL]
    ensures Tokens(mem) == Scanned(mem[1 := NUL], 4, [0, 2], false)
  {
    var m1 := mem[1 := NUL];
    assert [0] + [2] == [0, 2];
    assert ScanFrom(mem, 1, [0]) == ScanFrom(m1, 3, [0, 2]);
    assert ScanFrom(m1, 3, [0, 2]) == ScanFrom(m1, 4, [0, 2]);
  }

  lemma DoubleSpaceStrings(m1: seq<Byte>)
    requires m1 == ['a', NUL, ' ', 'b', NUL]
    ensures ArgStrings(m1, [0, 2]) == [['a'], [' ', 'b']]
  {
    assert CStr(m1, 0) == ['a'];
    assert CStr(m1, 3) == ['b'] + CStr(m1, 4) == ['b'];
    assert CStr(m1, 2) == [' '] + CStr(m1, 3) == [' ', 'b'];
    var ts := ArgStrings(m1, [0, 2]);
    assert ts[0] == ['a'] && ts[1] == [' ', 'b'];
  }

  /**
   * A separator at the end of the line: the terminating NUL right after it
   * is skipped and the scan goes on into stale bytes of the buffer, so
   * "ping " answers as if the client had sent "ping  y".
   */
  lemma TrailingSpaceReadsStaleBytes()
    ensures var mem: seq<Byte> := ['p', 'i', 'n', 'g', ' ', NUL, 'x', ' ', 'y', NUL];
            Tokens(mem) == Scanned(mem[4 := NUL][7 := NUL], 9, [0, 5, 8], false) &&
            ArgStrings(mem[4 := NUL][7 := NUL], [0, 5, 8]) == ["ping", [], ['y']] &&
            Split(mem[..5]) == ["ping", []]
  {
    var mem: seq<Byte> := ['p', 'i', 'n', 'g', ' ', NUL, 'x', ' ', 'y', NUL];
    StaleScan(mem);
    StaleStrings(mem[4 := NUL][7 := NUL]);
    var ts: seq<Str> := ["ping", []];
    assert Join(ts) == mem[..5];
    SplitJoin(ts);
  }

  lemma StaleScan(mem: seq<Byte>)
    requires mem == ['p', 'i', 'n', 'g', ' ', NUL, 'x', ' ', 'y', NUL]
    ensures Tokens(mem) == Scanned(mem[4 := NUL][7 := NUL], 9, [0, 5, 8], false)
  {
    ScanPastRun(mem, 0, 4, [0]);
    var m1 := mem[4 := NUL];
    assert [0] + [5] == [0, 5];
    assert ScanFrom(mem, 4, [0]) == ScanFrom(m1, 6, [0, 5]);
    var m2 := m1[7 := NUL];
    assert [0, 5] + [8] == [0, 5, 8];
    assert ScanFrom(m1, 6, [0, 5]) == ScanFrom(m1, 7, [0, 5]);
    assert ScanFrom(m1, 7, [0, 5]) == ScanFrom(m2, 9, [0, 5, 8]);
  }

  lemma StaleStrings(m: seq<Byte>)
    requires m == ['p', 'i', 'n', 'g', NUL, NUL, 'x', NUL, 'y', NUL]
    ensures ArgStrings(m, [0, 5, 8]) == ["ping", [], ['y']]
  {
    assert CStr(m, 3) == ['g'];
    assert CStr(m, 1) == ['i', 'n', 'g'];
    assert CStr(m, 0) == "ping";
    assert CStr(m, 5) == [];
    assert CStr(m, 8) == ['y'];
  }

  /**
   * A separator in the last byte before the final NUL of a full buffer:
   * the scan steps over the NUL and reads past the end of `buf`.
   */
  lemma TrailingSpaceOverruns(ext: External)
    ensures var mem: seq<Byte> := seq(BUFFER_MAX - 2, i => 'a') + [' ', NUL];
            |mem| == BUFFER_MAX && Tokens(mem).Overrun? && Respond(mem, ext).Undefined?
  {
    var mem: seq<Byte> := seq(BUFFER_MAX - 2, i => 'a') + [' ', NUL];
    ScanPastRun(mem, 0, BUFFER_MAX - 2, [0]);
    assert ScanFrom(mem, BUFFER_MAX - 2, [0]) == ScanFrom(mem[BUFFER_MAX - 2 := NUL], BUFFER_MAX, [0, BUFFER_MAX - 1]);
  }

  /**
   * A well-spaced line that fills the buffer: "ping" with one 1018-byte
   * argument, NUL in the last byte. Even the short reply "-1" is written
   * at the cursor, past the end of `buf`.
   */
  lemma LongLineReplyOverflows(ext: External)
    ensures var mem: seq<Byte> := "ping " + seq(BUFFER_MAX - 6, i => 'a') + [NUL];
            |mem| == BUFFER_MAX && WellSpaced(mem[..BUFFER_MAX - 1]) && Respond(mem, ext).Undefined?
  {
    var w: Str := seq(BUFFER_MAX - 6, i => 'a');
    var mem: seq<Byte> := "ping " + w + [NUL];
    var p := mem[..BUFFER_MAX - 1];
    assert p == "ping " + w;
    assert NoNul(p);
    LongLineSpacing(w);
    RespondOverflows(mem, BUFFER_MAX - 1, ext);
  }

  lemma LongLineSpacing(w: Str)
    requires w == seq(BUFFER_MAX - 6, i => 'a')
    ensures WellSpaced("ping " + w) && CountSpaces("ping " + w) < TOKEN_MAX
  {
    var p := "ping " + w;
    assert NoSpace(w) && NoSpace("ping");
    CountSpacesNone("ping");
    CountSpacesNone(w);
    assert p == "ping" + ([' '] + w);
    CountSpacesConcat("ping", [' '] + w);
    CountSpacesConcat([' '], w);
    assert CountSpaces([' ']) == 1;
    forall i | 0 <= i < |p| - 1
      ensures !(IsSpace(p[i]) && IsSpace(p[i + 1]))
    {
      if i < 4 {
        assert p[i] == "ping"[i];
      } else {
        assert p[i + 1] == w[i - 4];
      }
    }
  }
}
