/** What running a compacted program means, independently of the bracket
  * table: a reference interpreter whose loop jumps search the token stream
  * for the matching delimiter. The table-driven loop of bf_run (src/bf.c) is
  * proved to compute exactly this. */
module BfSemantics {
  import opened BfSyntax

  /** The machine state at the head of bf_run's loop: the token index, the
    * data pointer, the tape, how much of the input has been read, and what
    * has been written to the output. */
  datatype Config = Config(ti: int, dp: int, mem: seq<bv8>, inPos: nat, out: seq<bv8>)

  /** How a run ends: the program counter ran off the end, a write to the
    * output failed, or the step bound was reached first. */
  datatype Status = Halted | WriteFailed | OutOfFuel

  datatype Outcome = Outcome(status: Status, c: Config)

  /** One step either goes on or stops at a failed write. */
  datatype StepResult = Next(c: Config) | Failed(c: Config)

  /** The state before the first step, on the tape `mem`. */
  function Start(mem: seq<bv8>): Config {
    Config(0, 0, mem, 0, [])
  }

  /** The token index is not negative and the data pointer is on the tape. */
  predicate Wf(c: Config) {
    0 <= c.ti && 0 <= c.dp < |c.mem|
  }

  /** getchar on the input `input` of which `pos` bytes have been read: the
    * next byte, or EOF (-1) when there is none. */
  function GetChar(input: seq<bv8>, pos: nat): (ch: int)
    ensures -1 <= ch < 256
    ensures ch == -1 <==> pos >= |input|
  {
    if pos < |input| then input[pos] as int else -1
  }

  /** The conversion of getchar's int result to the char cell: modulo 256.
    * A byte read is stored as it is; EOF stores 0xFF. */
  function ToByte(ch: int): (r: bv8)
    ensures 0 <= ch < 256 ==> r as int == ch
    ensures ch == -1 ==> r == 0xFF
  {
    (ch % 256) as bv8
  }

  /** Whether the `k`-th write to the output succeeds; writes past the end
    * of `writeOk` always do. */
  predicate WriteSucceeds(writeOk: seq<bool>, k: nat) {
    k >= |writeOk| || writeOk[k]
  }

  /** The first `]` at or after `i` that closes the `depth` loops opened so
    * far, or `|s|` if there is none. */
  function ScanClose(s: seq<bv8>, i: nat, depth: nat): (q: int)
    ensures q <= |s| && (q < |s| ==> i <= q && s[q] == Close)
    decreases |s| - i
  {
    if i >= |s| then |s|
    else if s[i] == Close then (if depth == 0 then i else ScanClose(s, i + 1, depth - 1))
    else if s[i] == Open then ScanClose(s, i + 1, depth + 1)
    else ScanClose(s, i + 1, depth)
  }

  /** The last `[` at or before `i` that opens the `depth` loops closed so
    * far, or -1 if there is none. */
  function ScanOpen(s: seq<bv8>, i: int, depth: nat): (p: int)
    requires -1 <= i < |s|
    ensures -1 <= p <= i
    ensures p >= 0 ==> s[p] == Open
    decreases i + 1
  {
    if i < 0 then -1
    else if s[i] == Open then (if depth == 0 then i else ScanOpen(s, i - 1, depth - 1))
    else if s[i] == Close then ScanOpen(s, i - 1, depth + 1)
    else ScanOpen(s, i - 1, depth)
  }

  /** One pass through the body of bf_run's loop on the token at `c.ti`. */
  function Step(s: seq<bv8>, input: seq<bv8>, writeOk: seq<bool>, c: Config): (r: StepResult)
    requires Wf(c) && c.ti < |s|
    ensures Wf(r.c) && |r.c.mem| == |c.mem| && c.out <= r.c.out && c.inPos <= r.c.inPos
    ensures r.Failed? <==> s[c.ti] == Put && !WriteSucceeds(writeOk, |c.out|)
    ensures r.Failed? ==> r.c == c
  {
    var b := s[c.ti];
    var next := c.ti + 1;
    if b == Right then
      Next(c.(ti := next, dp := if c.dp + 1 == |c.mem| then 0 else c.dp + 1))
    else if b == Left then
      Next(c.(ti := next, dp := (if c.dp == 0 then |c.mem| else c.dp) - 1))
    else if b == Inc then
      Next(c.(ti := next, mem := c.mem[c.dp := c.mem[c.dp] + 1]))
    else if b == Dec then
      Next(c.(ti := next, mem := c.mem[c.dp := c.mem[c.dp] - 1]))
    else if b == Put then
      if WriteSucceeds(writeOk, |c.out|) then Next(c.(ti := next, out := c.out + [c.mem[c.dp]]))
      else Failed(c)
    else if b == Get then
      var ch := GetChar(input, c.inPos);
      Next(c.(ti := next, mem := c.mem[c.dp := ToByte(ch)],
              inPos := if ch == -1 then c.inPos else c.inPos + 1))
    else if b == Open then
      if c.mem[c.dp] == 0 then
        var q := ScanClose(s, next, 0);
        Next(c.(ti := if q < |s| then q + 1 else |s|))
      else Next(c.(ti := next))
    else if b == Close then
      var p := ScanOpen(s, c.ti - 1, 0);
      Next(c.(ti := if p >= 0 then p else |s|))
    else
      Next(c.(ti := next))
  }

  /** Runs at most `fuel` steps from `c`. The run halts exactly when the
    * token index has reached the end of the program; the data pointer stays
    * on the tape and the output only grows. */
  function Exec(s: seq<bv8>, input: seq<bv8>, writeOk: seq<bool>, c: Config, fuel: nat): (r: Outcome)
    requires Wf(c)
    ensures Wf(r.c) && |r.c.mem| == |c.mem| && c.out <= r.c.out
    ensures r.status == Halted <==> r.c.ti >= |s|
    decreases fuel
  {
    if c.ti >= |s| then Outcome(Halted, c)
    else if fuel == 0 then Outcome(OutOfFuel, c)
    else match Step(s, input, writeOk, c)
      case Failed(c') => Outcome(WriteFailed, c')
      case Next(c') => Exec(s, input, writeOk, c', fuel - 1)
  }

  /** A run from a state that has a next step is that step followed by the
    * rest of the run, or ends there if the step is a failed write. */
  lemma ExecUnfold(s: seq<bv8>, input: seq<bv8>, writeOk: seq<bool>, c: Config, fuel: nat)
    requires Wf(c) && c.ti < |s|
    ensures var r := Step(s, input, writeOk, c);
      Exec(s, input, writeOk, c, fuel + 1) ==
        if r.Next? then Exec(s, input, writeOk, r.c, fuel) else Outcome(WriteFailed, c)
  {
  }

  // ---------------------------------------------------------------------
  // The instructions, one at a time

  /** `>` moves the data pointer right, from the last cell to the first. */
  lemma RightWraps(s: seq<bv8>, input: seq<bv8>, writeOk: seq<bool>, c: Config)
    requires Wf(c) && c.ti < |s| && s[c.ti] == Right
    ensures var r := Step(s, input, writeOk, c);
      r == Next(c.(ti := c.ti + 1, dp := (c.dp + 1) % |c.mem|))
  {
  }

  /** `<` moves the data pointer left, from the first cell to the last. */
  lemma LeftWraps(s: seq<bv8>, input: seq<bv8>, writeOk: seq<bool>, c: Config)
    requires Wf(c) && c.ti < |s| && s[c.ti] == Left
    ensures var r := Step(s, input, writeOk, c);
      r == Next(c.(ti := c.ti + 1, dp := (c.dp - 1) % |c.mem|))
  {
    if c.dp == 0 {
      assert (c.dp - 1) % |c.mem| == |c.mem| - 1;
    }
  }

  /** After the last cell comes the first, and before the first the last. */
  lemma PointerEnds(s: seq<bv8>, input: seq<bv8>, writeOk: seq<bool>, c: Config)
    requires Wf(c) && c.ti < |s|
    ensures s[c.ti] == Right && c.dp == |c.mem| - 1 ==> Step(s, input, writeOk, c).c.dp == 0
    ensures s[c.ti] == Left && c.dp == 0 ==> Step(s, input, writeOk, c).c.dp == |c.mem| - 1
  {
  }

  /** `+` and `-` change the current cell by one modulo 256, and nothing else
    * on the tape or in the I/O. */
  lemma CellArith(s: seq<bv8>, input: seq<bv8>, writeOk: seq<bool>, c: Config)
    requires Wf(c) && c.ti < |s| && (s[c.ti] == Inc || s[c.ti] == Dec)
    ensures var r := Step(s, input, writeOk, c).c;
      var delta := if s[c.ti] == Inc then 1 else -1;
      r.ti == c.ti + 1 && r.dp == c.dp && r.inPos == c.inPos && r.out == c.out &&
      |r.mem| == |c.mem| &&
      r.mem[c.dp] as int == (c.mem[c.dp] as int + delta) % 256 &&
      forall j :: 0 <= j < |c.mem| && j != c.dp ==> r.mem[j] == c.mem[j]
  {
    var x := c.mem[c.dp];
    if s[c.ti] == Inc {
      ByteInc(x);
    } else {
      ByteDec(x);
    }
  }

  lemma ByteInc(x: bv8)
    ensures (x + 1) as int == (x as int + 1) % 256
  {
    if x == 0xFF {
      assert x + 1 == 0;
    } else {
      assert (x + 1) as int == x as int + 1;
    }
  }

  lemma ByteDec(x: bv8)
    ensures (x - 1) as int == (x as int - 1) % 256
  {
    if x == 0 {
      assert x - 1 == 0xFF;
    } else {
      assert (x - 1) as int == x as int - 1;
    }
  }

  /** `.` appends the current cell to the output when the write succeeds and
    * changes nothing else; when it fails the run stops there. */
  lemma PutAppends(s: seq<bv8>, input: seq<bv8>, writeOk: seq<bool>, c: Config)
    requires Wf(c) && c.ti < |s| && s[c.ti] == Put
    ensures WriteSucceeds(writeOk, |c.out|) ==>
      Step(s, input, writeOk, c) == Next(c.(ti := c.ti + 1, out := c.out + [c.mem[c.dp]]))
    ensures !WriteSucceeds(writeOk, |c.out|) ==> Step(s, input, writeOk, c) == Failed(c)
  {
  }

  /** `,` stores the next input byte and consumes it; at the end of the input
    * it stores 0xFF, getchar's EOF truncated to a byte. */
  lemma GetStores(s: seq<bv8>, input: seq<bv8>, writeOk: seq<bool>, c: Config)
    requires Wf(c) && c.ti < |s| && s[c.ti] == Get
    ensures var r := Step(s, input, writeOk, c).c;
      r.ti == c.ti + 1 && r.dp == c.dp && r.out == c.out &&
      (c.inPos < |input| ==> r.mem == c.mem[c.dp := input[c.inPos]] && r.inPos == c.inPos + 1) &&
      (c.inPos >= |input| ==> r.mem == c.mem[c.dp := 0xFF] && r.inPos == c.inPos)
  {
    if c.inPos < |input| {
      var x := input[c.inPos];
      assert ToByte(x as int) == x by {
        assert (x as int) % 256 == x as int;
      }
    }
  }

  /** Scanning forward from inside a loop finds its `]`: at `i`, the depth
    * relative to the loop's `[` tells how many inner loops are open. */
  lemma {:induction false} ScanCloseFrom(s: seq<bv8>, p: int, q: int, i: nat)
    requires Matches(s, p, q) && p < i <= q
    ensures Depth(s, i) - Depth(s, p) - 1 >= 0
    ensures ScanClose(s, i, Depth(s, i) - Depth(s, p) - 1) == q
    decreases q - i
  {
    ghost var d := Depth(s, i + 1);
    if i < q {
      ScanCloseFrom(s, p, q, i + 1);
    }
  }

  /** Scanning backward from inside a loop finds its `[`. */
  lemma {:induction false} ScanOpenFrom(s: seq<bv8>, p: int, q: int, i: int)
    requires Matches(s, p, q) && p <= i < q
    ensures Depth(s, i + 1) - Depth(s, p) - 1 >= 0
    ensures ScanOpen(s, i, Depth(s, i + 1) - Depth(s, p) - 1) == p
    decreases i - p
  {
    ghost var d := Depth(s, i + 1);
    if p < i {
      ScanOpenFrom(s, p, q, i - 1);
    }
  }

  /** `[` on a zero cell resumes just after its matching `]`; on any other
    * cell it enters the loop body. */
  lemma OpenJumps(s: seq<bv8>, input: seq<bv8>, writeOk: seq<bool>, c: Config, q: int)
    requires Wf(c) && Matches(s, c.ti, q)
    ensures c.mem[c.dp] == 0 ==> Step(s, input, writeOk, c) == Next(c.(ti := q + 1))
    ensures c.mem[c.dp] != 0 ==> Step(s, input, writeOk, c) == Next(c.(ti := c.ti + 1))
  {
    ScanCloseFrom(s, c.ti, q, c.ti + 1);
  }

  /** `]` always resumes at its matching `[`, which tests the cell again. */
  lemma CloseJumps(s: seq<bv8>, input: seq<bv8>, writeOk: seq<bool>, c: Config, p: int)
    requires Wf(c) && Matches(s, p, c.ti)
    ensures Step(s, input, writeOk, c) == Next(c.(ti := p))
  {
    ScanOpenFrom(s, p, c.ti, c.ti - 1);
  }

  /** An empty program halts at once, with no I/O and the tape as it was. */
  lemma EmptyProgram(input: seq<bv8>, writeOk: seq<bool>, mem: seq<bv8>, fuel: nat)
    requires |mem| > 0
    ensures Exec([], input, writeOk, Start(mem), fuel) == Outcome(Halted, Start(mem))
  {
  }
}
