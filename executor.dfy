/** bf_run (src/bf.c): the table-driven interpreter loop over the compacted
  * program. Each loop jump takes two table lookups instead of a search; the
  * loop is proved to compute what the reference interpreter of BfSemantics
  * computes, step for step. */
module BfExecutor {
  import opened BfSyntax
  import opened GrowableStack
  import opened BfSemantics

  /** The `-d` option: no dump, or a dump of the tape whose write succeeds
    * (`ok`) or fails. */
  datatype Dump = NoDump | DumpTo(ok: bool)

  /** bf_run's return value (1 on success, 0 on a failed write), or no
    * value because the step bound ran out first. */
  datatype RunResult = Returned(code: int) | Exhausted

  /** What bf_run returns after a run with outcome `r`: 1 exactly when the
    * program ran to its end and the dump, if asked for, was written. */
  function ResultOf(r: Outcome, dump: Dump): (res: RunResult)
    ensures res == Exhausted <==> r.status == OutOfFuel
    ensures res == Returned(1) <==> r.status == Halted && dump != DumpTo(false)
    ensures res.Returned? ==> res.code == 0 || res.code == 1
  {
    match r.status
    case OutOfFuel => Exhausted
    case WriteFailed => Returned(0)
    case Halted => Returned(if dump == DumpTo(false) then 0 else 1)
  }

  /** What bf_run writes to the dump: the whole tape, once the program has
    * run to its end with `-d` given, and nothing otherwise. */
  function DumpedOf(r: Outcome, dump: Dump): (d: seq<bv8>)
    ensures d != [] ==> r.status == Halted && dump == DumpTo(true) && d == r.c.mem
    ensures r.status == Halted && dump == DumpTo(true) ==> |d| == |r.c.mem|
  {
    if r.status == Halted && dump == DumpTo(true) then r.c.mem else []
  }

  /** At a `[` whose table entry is `bi`, the entry it points to is that of
    * its matching `]`, and jumping there keeps the lockstep: the next entry
    * index is the count of delimiters up to just after that `]`. */
  lemma OpenLookup(s: seq<bv8>, table: seq<Bracket>, ti: nat, bi: nat)
    requires TableOf(s, table) && ti < |s| && s[ti] == Open && bi == Count(s, ti)
    ensures bi < |table| && 0 <= table[bi].bracketIdx < |table|
    ensures var q := table[table[bi].bracketIdx].tokenIdx;
      Matches(s, ti, q) && Count(s, q + 1) == table[bi].bracketIdx + 1
    ensures Count(s, ti + 1) == bi + 1
  {
    EntryOf(s, table, ti);
    assert Located(s, table, bi) && Paired(s, table, bi);
    var m := table[bi].bracketIdx;
    assert Located(s, table, m);
  }

  /** At a `]` whose table entry is `bi`, the entry it points to is that of
    * its matching `[`, whose index is the count of delimiters before it. */
  lemma CloseLookup(s: seq<bv8>, table: seq<Bracket>, ti: nat, bi: nat)
    requires TableOf(s, table) && ti < |s| && s[ti] == Close && bi == Count(s, ti)
    ensures bi < |table| && 0 <= table[bi].bracketIdx < |table|
    ensures var p := table[table[bi].bracketIdx].tokenIdx;
      Matches(s, p, ti) && Count(s, p) == table[bi].bracketIdx
  {
    EntryOf(s, table, ti);
    assert Located(s, table, bi) && Paired(s, table, bi);
    var m := table[bi].bracketIdx;
    assert Located(s, table, m);
  }

  /** The cases `[` and `]` of bf_run's switch, followed by
    * `state.token_idx++`: the jump through the table. */
  method Jump(bracs: seq<Bracket>, ghost s: seq<bv8>, input: seq<bv8>, writeOk: seq<bool>,
              ghost c: Config, b: bv8, cell: bv8, ti: int, bi: int)
    returns (ti': int, bi': int)
    requires TableOf(s, bracs) && Wf(c) && c.ti == ti < |s| && bi == Count(s, ti)
    requires b == s[ti] && IsBracket(b) && cell == c.mem[c.dp]
    ensures Step(s, input, writeOk, c) == Next(c.(ti := ti')) && ti' <= |s| && bi' == Count(s, ti')
  {
    ti', bi' := ti, bi;
    if b == Open {
      OpenLookup(s, bracs, ti, bi);
      OpenJumps(s, input, writeOk, c, bracs[bracs[bi].bracketIdx].tokenIdx);
      if cell == 0 {
        var src := bracs[bi];
        var dest := bracs[src.bracketIdx];
        ti' := dest.tokenIdx;
        bi' := src.bracketIdx;
      }
      bi' := bi' + 1;
    } else {
      CloseLookup(s, bracs, ti, bi);
      CloseJumps(s, input, writeOk, c, bracs[bracs[bi].bracketIdx].tokenIdx);
      var src := bracs[bi];
      var dest := bracs[src.bracketIdx];
      ti' := dest.tokenIdx - 1;
      bi' := src.bracketIdx;
    }
    ti' := ti' + 1;
  }

  /** The cases `+`, `-` and `,` of bf_run's switch, followed by
    * `state.token_idx++`: the ones that write the current cell. */
  method CellOp(memory: array<bv8>, ghost s: seq<bv8>, input: seq<bv8>, writeOk: seq<bool>,
                b: bv8, ti: int, dp: int, inPos: nat, out: seq<bv8>)
    returns (inPos': nat)
    requires 0 <= ti < |s| && b == s[ti] && (b == Inc || b == Dec || b == Get) && 0 <= dp < memory.Length
    modifies memory
    ensures Step(s, input, writeOk, Config(ti, dp, old(memory[..]), inPos, out)) ==
      Next(Config(ti + 1, dp, memory[..], inPos', out))
  {
    inPos' := inPos;
    if b == Inc {
      memory[dp] := memory[dp] + 1;
    } else if b == Dec {
      memory[dp] := memory[dp] - 1;
    } else {
      var ch := GetChar(input, inPos);
      memory[dp] := ToByte(ch);
      if ch != -1 {
        inPos' := inPos + 1;
      }
    }
  }

  /** The cases `>`, `<` and `.` of bf_run's switch and the bytes it ignores,
    * followed by `state.token_idx++`. `ok` false is the failed write after
    * which bf_run returns 0. */
  method Move(mem: seq<bv8>, ghost s: seq<bv8>, input: seq<bv8>, writeOk: seq<bool>,
              b: bv8, ti: int, dp: int, inPos: nat, out: seq<bv8>)
    returns (ok: bool, dp': int, out': seq<bv8>)
    requires 0 <= ti < |s| && b == s[ti] && !IsBracket(b) && b != Inc && b != Dec && b != Get
    requires 0 <= dp < |mem|
    ensures var r := Step(s, input, writeOk, Config(ti, dp, mem, inPos, out));
      if ok then r == Next(Config(ti + 1, dp', mem, inPos, out')) else r.Failed? && out' == out
  {
    ok, dp', out' := true, dp, out;
    if b == Right {
      dp' := dp + 1;
      if dp' == |mem| {
        dp' := 0;
      }
    } else if b == Left {
      if dp == 0 {
        dp' := |mem|;
      }
      dp' := dp' - 1;
    } else if b == Put {
      if !WriteSucceeds(writeOk, |out|) {
        return false, dp, out;
      }
      out' := out + [mem[dp]];
    }
  }

  /** One pass through the body of bf_run's loop, with `bi` the entry index
    * of the loop state. It takes the step the reference interpreter takes,
    * or reports the failed write (`ok` false) after which bf_run returns 0. */
  method RunStep(program: array<bv8>, prgmSize: nat, bracs: seq<Bracket>, memory: array<bv8>,
                 input: seq<bv8>, writeOk: seq<bool>,
                 ti: int, bi: int, dp: int, inPos: nat, out: seq<bv8>)
    returns (ok: bool, ti': int, bi': int, dp': int, inPos': nat, out': seq<bv8>)
    requires prgmSize <= program.Length && program != memory
    requires TableOf(program[..prgmSize], bracs)
    requires 0 <= ti < prgmSize && bi == Count(program[..prgmSize], ti) && 0 <= dp < memory.Length
    modifies memory
    ensures var r := Step(program[..prgmSize], input, writeOk, Config(ti, dp, old(memory[..]), inPos, out));
      if ok then
        r == Next(Config(ti', dp', memory[..], inPos', out')) &&
        ti' <= prgmSize && bi' == Count(program[..prgmSize], ti')
      else
        r.Failed? && memory[..] == old(memory[..]) && out' == out
  {
    ghost var s := program[..prgmSize];
    ok, ti', bi', dp', inPos', out' := true, ti + 1, bi, dp, inPos, out;
    var b := program[ti];
    assert b == s[ti];
    if IsBracket(b) {
      ti', bi' := Jump(bracs, s, input, writeOk, Config(ti, dp, memory[..], inPos, out), b, memory[dp], ti, bi);
    } else if b == Inc || b == Dec || b == Get {
      inPos' := CellOp(memory, s, input, writeOk, b, ti, dp, inPos, out);
      assert Count(s, ti + 1) == bi;
    } else {
      ok, dp', out' := Move(memory[..], s, input, writeOk, b, ti, dp, inPos, out);
      assert Count(s, ti + 1) == bi;
    }
  }

  /** The loop of bf_run (with at most `fuel` passes through its body) on
    * the compacted program `program[..prgmSize]` and the table built by
    * bf_parse: it ends as the reference interpreter's run does, with the same
    * tape and output. `input` is what getchar reads and `writeOk` says which
    * writes to the output succeed. */
  method Interpret(program: array<bv8>, prgmSize: nat, bracs: seq<Bracket>, memory: array<bv8>,
                   input: seq<bv8>, writeOk: seq<bool>, fuel: nat)
    returns (st: Status, out: seq<bv8>)
    requires prgmSize <= program.Length && memory.Length > 0 && program != memory
    requires TableOf(program[..prgmSize], bracs)
    modifies memory
    ensures var r := Exec(program[..prgmSize], input, writeOk, Start(old(memory[..])), fuel);
      st == r.status && out == r.c.out && memory[..] == r.c.mem
  {
    ghost var s := program[..prgmSize];
    ghost var whole := Exec(s, input, writeOk, Start(memory[..]), fuel);
    var ti, bi, dp := 0, 0, 0;
    var inPos := 0;
    out := [];
    var steps := fuel;
    while ti < prgmSize
      invariant 0 <= ti <= prgmSize && bi == Count(s, ti) && 0 <= dp < memory.Length
      invariant Exec(s, input, writeOk, Config(ti, dp, memory[..], inPos, out), steps) == whole
      decreases steps
    {
      if steps == 0 {
        return OutOfFuel, out;
      }
      steps := steps - 1;
      ExecUnfold(s, input, writeOk, Config(ti, dp, memory[..], inPos, out), steps);
      var ok;
      ok, ti, bi, dp, inPos, out := RunStep(program, prgmSize, bracs, memory, input, writeOk, ti, bi, dp, inPos, out);
      if !ok {
        return WriteFailed, out;
      }
    }
    return Halted, out;
  }

  /** bf_run: the loop, then the dump of the tape when `-d` was given.
    * Returns the result, the bytes written to the output, and the bytes of
    * the dump. */
  method Run(program: array<bv8>, prgmSize: nat, table: Stack<Bracket>, memory: array<bv8>,
             input: seq<bv8>, writeOk: seq<bool>, dump: Dump, fuel: nat)
    returns (res: RunResult, out: seq<bv8>, dumped: seq<bv8>)
    requires prgmSize <= program.Length && memory.Length > 0 && program != memory
    requires TableOf(program[..prgmSize], table.elems)
    modifies memory
    ensures var r := Exec(program[..prgmSize], input, writeOk, Start(old(memory[..])), fuel);
      res == ResultOf(r, dump) && out == r.c.out && memory[..] == r.c.mem &&
      dumped == DumpedOf(r, dump)
  {
    var st;
    st, out := Interpret(program, prgmSize, table.elems, memory, input, writeOk, fuel);
    dumped := [];
    if st == OutOfFuel {
      res := Exhausted;
    } else if st == WriteFailed {
      res := Returned(0);
    } else if dump == DumpTo(false) {
      res := Returned(0);
    } else {
      if dump.DumpTo? {
        dumped := memory[..];
      }
      res := Returned(1);
    }
  }
}
