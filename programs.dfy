/** Whole runs of small programs on the reference interpreter, which the
  * table-driven loop of bf_run is proved to follow (src/bf.c). */
module BfPrograms {
  import opened BfSyntax
  import opened BfSemantics

  /** A run whose next token is `+`, `-`, `>`, `<` or `.` takes that step
    * and goes on from the state it leaves. */
  lemma IncRuns(s: seq<bv8>, input: seq<bv8>, writeOk: seq<bool>, c: Config, fuel: nat)
    requires Wf(c) && c.ti < |s| && s[c.ti] == Inc
    ensures Exec(s, input, writeOk, c, fuel + 1) ==
            Exec(s, input, writeOk, c.(ti := c.ti + 1, mem := c.mem[c.dp := c.mem[c.dp] + 1]), fuel)
  {
    ExecUnfold(s, input, writeOk, c, fuel);
  }

  lemma DecRuns(s: seq<bv8>, input: seq<bv8>, writeOk: seq<bool>, c: Config, fuel: nat)
    requires Wf(c) && c.ti < |s| && s[c.ti] == Dec
    ensures Exec(s, input, writeOk, c, fuel + 1) ==
            Exec(s, input, writeOk, c.(ti := c.ti + 1, mem := c.mem[c.dp := c.mem[c.dp] - 1]), fuel)
  {
    ExecUnfold(s, input, writeOk, c, fuel);
  }

  lemma RightRuns(s: seq<bv8>, input: seq<bv8>, writeOk: seq<bool>, c: Config, fuel: nat)
    requires Wf(c) && c.ti < |s| && s[c.ti] == Right && c.dp + 1 < |c.mem|
    ensures Exec(s, input, writeOk, c, fuel + 1) == Exec(s, input, writeOk, c.(ti := c.ti + 1, dp := c.dp + 1), fuel)
  {
    ExecUnfold(s, input, writeOk, c, fuel);
  }

  lemma LeftRuns(s: seq<bv8>, input: seq<bv8>, writeOk: seq<bool>, c: Config, fuel: nat)
    requires Wf(c) && c.ti < |s| && s[c.ti] == Left && c.dp > 0
    ensures Exec(s, input, writeOk, c, fuel + 1) == Exec(s, input, writeOk, c.(ti := c.ti + 1, dp := c.dp - 1), fuel)
  {
    ExecUnfold(s, input, writeOk, c, fuel);
  }

  lemma PutRuns(s: seq<bv8>, input: seq<bv8>, writeOk: seq<bool>, c: Config, fuel: nat)
    requires Wf(c) && c.ti < |s| && s[c.ti] == Put && WriteSucceeds(writeOk, |c.out|)
    ensures Exec(s, input, writeOk, c, fuel + 1) ==
            Exec(s, input, writeOk, c.(ti := c.ti + 1, out := c.out + [c.mem[c.dp]]), fuel)
  {
    ExecUnfold(s, input, writeOk, c, fuel);
  }

  /** A run at a `[` or a `]` jumps as its match says and goes on. */
  lemma OpenRuns(s: seq<bv8>, input: seq<bv8>, writeOk: seq<bool>, c: Config, q: int, fuel: nat)
    requires Wf(c) && Matches(s, c.ti, q)
    ensures Exec(s, input, writeOk, c, fuel + 1) ==
            Exec(s, input, writeOk, c.(ti := if c.mem[c.dp] == 0 then q + 1 else c.ti + 1), fuel)
  {
    ExecUnfold(s, input, writeOk, c, fuel);
    OpenJumps(s, input, writeOk, c, q);
  }

  lemma CloseRuns(s: seq<bv8>, input: seq<bv8>, writeOk: seq<bool>, c: Config, p: int, fuel: nat)
    requires Wf(c) && Matches(s, p, c.ti)
    ensures Exec(s, input, writeOk, c, fuel + 1) == Exec(s, input, writeOk, c.(ti := p), fuel)
  {
    ExecUnfold(s, input, writeOk, c, fuel);
    CloseJumps(s, input, writeOk, c, p);
  }

  /** `+[-]`: sets the cell, then clears it in a loop. */
  const ClearProgram: seq<bv8> := [Inc, Open, Dec, Close]

  /** The tokens of ClearProgram by index; its `[` matches its `]`. */
  lemma ClearTokens()
    ensures |ClearProgram| == 4
    ensures ClearProgram[0] == Inc && ClearProgram[1] == Open
    ensures ClearProgram[2] == Dec && ClearProgram[3] == Close
    ensures Matches(ClearProgram, 1, 3)
  {
    var s := ClearProgram;
    assert Depth(s, 1) == 0;
    assert Depth(s, 2) == 1;
    assert Depth(s, 3) == 1;
    assert Depth(s, 4) == 0;
  }

  /** On a tape whose first cell is 0, `+[-]` halts after five steps with
    * the tape as it was, reading and writing nothing. */
  lemma ClearLoop(input: seq<bv8>, writeOk: seq<bool>, mem: seq<bv8>, fuel: nat)
    requires |mem| > 0 && mem[0] == 0 && fuel >= 5
    ensures Exec(ClearProgram, input, writeOk, Start(mem), fuel) == Outcome(Halted, Config(4, 0, mem, 0, []))
  {
    var s := ClearProgram;
    var f := fuel - 5;
    var one := mem[0 := 1];
    assert one[0 := 0] == mem;
    ClearTokens();
    calc {
      Exec(s, input, writeOk, Start(mem), f + 4 + 1);
      { IncRuns(s, input, writeOk, Start(mem), f + 4); }
      Exec(s, input, writeOk, Config(1, 0, one, 0, []), f + 3 + 1);
      { OpenRuns(s, input, writeOk, Config(1, 0, one, 0, []), 3, f + 3); }
      Exec(s, input, writeOk, Config(2, 0, one, 0, []), f + 2 + 1);
      { DecRuns(s, input, writeOk, Config(2, 0, one, 0, []), f + 2); }
      Exec(s, input, writeOk, Config(3, 0, mem, 0, []), f + 1 + 1);
      { CloseRuns(s, input, writeOk, Config(3, 0, mem, 0, []), 1, f + 1); }
      Exec(s, input, writeOk, Config(1, 0, mem, 0, []), f + 1);
      { OpenRuns(s, input, writeOk, Config(1, 0, mem, 0, []), 3, f); }
      Exec(s, input, writeOk, Config(4, 0, mem, 0, []), f);
    }
  }

  /** `++>+++[-<+>]<.`: adds 2 and 3 by moving the second cell into the
    * first, then writes the sum. */
  const AddProgram: seq<bv8> := [Inc, Inc, Right, Inc, Inc, Inc, Open, Dec, Left, Inc, Right, Close, Left, Put]

  /** The tokens of AddProgram by index. */
  lemma AddTokens()
    ensures |AddProgram| == 14
    ensures AddProgram[0] == Inc && AddProgram[1] == Inc && AddProgram[2] == Right
    ensures AddProgram[3] == Inc && AddProgram[4] == Inc && AddProgram[5] == Inc
    ensures AddProgram[6] == Open && AddProgram[7] == Dec && AddProgram[8] == Left
    ensures AddProgram[9] == Inc && AddProgram[10] == Right && AddProgram[11] == Close
    ensures AddProgram[12] == Left && AddProgram[13] == Put
  {
  }

  /** The `[` at index 6 of AddProgram matches the `]` at index 11. */
  lemma AddLoopMatches()
    ensures Matches(AddProgram, 6, 11)
  {
    var s := AddProgram;
    AddTokens();
    assert Depth(s, 1) == 0;
    assert Depth(s, 2) == 0;
    assert Depth(s, 3) == 0;
    assert Depth(s, 4) == 0;
    assert Depth(s, 5) == 0;
    assert Depth(s, 6) == 0;
    assert Depth(s, 7) == 1;
    assert Depth(s, 8) == 1;
    assert Depth(s, 9) == 1;
    assert Depth(s, 10) == 1;
    assert Depth(s, 11) == 1;
    assert Depth(s, 12) == 0;
  }

  /** The first half of the loop body, `-<`: a unit leaves the second cell
    * and the data pointer moves to the first. */
  lemma MoveTake(input: seq<bv8>, writeOk: seq<bool>, a: bv8, b: bv8, fuel: nat)
    ensures Exec(AddProgram, input, writeOk, Config(7, 1, [a, b], 0, []), fuel + 2) ==
            Exec(AddProgram, input, writeOk, Config(9, 0, [a, b - 1], 0, []), fuel)
  {
    var s := AddProgram;
    var m1 := [a, b - 1];
    assert [a, b][1 := b - 1] == m1;
    AddTokens();
    DecRuns(s, input, writeOk, Config(7, 1, [a, b], 0, []), fuel + 1);
    LeftRuns(s, input, writeOk, Config(8, 1, m1, 0, []), fuel);
  }

  /** The second half of the loop body, `+>]`: the unit arrives in the first
    * cell, and control is back at the `[` with the data pointer on the
    * second cell. */
  lemma MoveGive(input: seq<bv8>, writeOk: seq<bool>, a: bv8, b: bv8, fuel: nat)
    ensures Exec(AddProgram, input, writeOk, Config(9, 0, [a, b], 0, []), fuel + 3) ==
            Exec(AddProgram, input, writeOk, Config(6, 1, [a + 1, b], 0, []), fuel)
  {
    var s := AddProgram;
    var m2 := [a + 1, b];
    assert [a, b][0 := a + 1] == m2;
    AddTokens();
    AddLoopMatches();
    IncRuns(s, input, writeOk, Config(9, 0, [a, b], 0, []), fuel + 2);
    RightRuns(s, input, writeOk, Config(10, 0, m2, 0, []), fuel + 1);
    CloseRuns(s, input, writeOk, Config(11, 1, m2, 0, []), 6, fuel);
  }

  /** One pass through the loop `[-<+>]` with `b` not zero in the second
    * cell: six steps move a unit to the first cell and return to the `[`. */
  lemma MoveOnce(input: seq<bv8>, writeOk: seq<bool>, a: bv8, b: bv8, fuel: nat)
    requires b != 0
    ensures Exec(AddProgram, input, writeOk, Config(6, 1, [a, b], 0, []), fuel + 6) ==
            Exec(AddProgram, input, writeOk, Config(6, 1, [a + 1, b - 1], 0, []), fuel)
  {
    var s := AddProgram;
    AddLoopMatches();
    calc {
      Exec(s, input, writeOk, Config(6, 1, [a, b], 0, []), fuel + 3 + 2 + 1);
      { OpenRuns(s, input, writeOk, Config(6, 1, [a, b], 0, []), 11, fuel + 3 + 2); }
      Exec(s, input, writeOk, Config(7, 1, [a, b], 0, []), fuel + 3 + 2);
      { MoveTake(input, writeOk, a, b, fuel + 3); }
      Exec(s, input, writeOk, Config(9, 0, [a, b - 1], 0, []), fuel + 3);
      { MoveGive(input, writeOk, a, b - 1, fuel); }
      Exec(s, input, writeOk, Config(6, 1, [a + 1, b - 1], 0, []), fuel);
    }
  }

  /** The loop `[-<+>]` entered with 0 in the second cell is skipped in one
    * step. */
  lemma MoveExit(input: seq<bv8>, writeOk: seq<bool>, a: bv8, fuel: nat)
    ensures Exec(AddProgram, input, writeOk, Config(6, 1, [a, 0], 0, []), fuel + 1) ==
            Exec(AddProgram, input, writeOk, Config(12, 1, [a, 0], 0, []), fuel)
  {
    AddLoopMatches();
    OpenRuns(AddProgram, input, writeOk, Config(6, 1, [a, 0], 0, []), 11, fuel);
  }

  /** The setup `++>+++` of AddProgram: 2 in the first cell, 3 in the
    * second, and the data pointer on the second. */
  lemma AddSetup(input: seq<bv8>, writeOk: seq<bool>, fuel: nat)
    ensures Exec(AddProgram, input, writeOk, Start([0, 0]), fuel + 6) ==
            Exec(AddProgram, input, writeOk, Config(6, 1, [2, 3], 0, []), fuel)
  {
    var s := AddProgram;
    var m0, m1, m2, m3, m4, m5: seq<bv8> := [0, 0], [1, 0], [2, 0], [2, 1], [2, 2], [2, 3];
    assert m0[0 := m0[0] + 1] == m1;
    assert m1[0 := m1[0] + 1] == m2;
    assert m2[1 := m2[1] + 1] == m3;
    assert m3[1 := m3[1] + 1] == m4;
    assert m4[1 := m4[1] + 1] == m5;
    AddTokens();
    IncRuns(s, input, writeOk, Start(m0), fuel + 5);
    IncRuns(s, input, writeOk, Config(1, 0, m1, 0, []), fuel + 4);
    RightRuns(s, input, writeOk, Config(2, 0, m2, 0, []), fuel + 3);
    IncRuns(s, input, writeOk, Config(3, 1, m2, 0, []), fuel + 2);
    IncRuns(s, input, writeOk, Config(4, 1, m3, 0, []), fuel + 1);
    IncRuns(s, input, writeOk, Config(5, 1, m4, 0, []), fuel);
  }

  /** On a two-cell tape of zeros, AddProgram halts after 27 steps with 5 in
    * the first cell and 5 written to the output, if that write succeeds. */
  lemma AddRun(input: seq<bv8>, writeOk: seq<bool>, fuel: nat)
    requires fuel >= 27 && WriteSucceeds(writeOk, 0)
    ensures Exec(AddProgram, input, writeOk, Start([0, 0]), fuel) ==
            Outcome(Halted, Config(14, 0, [5, 0], 0, [5]))
  {
    var s := AddProgram;
    var f := fuel - 27;
    AddTokens();
    calc {
      Exec(s, input, writeOk, Start([0, 0]), f + 21 + 6);
      { AddSetup(input, writeOk, f + 21); }
      Exec(s, input, writeOk, Config(6, 1, [2, 3], 0, []), f + 15 + 6);
      { MoveOnce(input, writeOk, 2, 3, f + 15); }
      Exec(s, input, writeOk, Config(6, 1, [3, 2], 0, []), f + 9 + 6);
      { MoveOnce(input, writeOk, 3, 2, f + 9); }
      Exec(s, input, writeOk, Config(6, 1, [4, 1], 0, []), f + 3 + 6);
      { MoveOnce(input, writeOk, 4, 1, f + 3); }
      Exec(s, input, writeOk, Config(6, 1, [5, 0], 0, []), f + 2 + 1);
      { MoveExit(input, writeOk, 5, f + 2); }
      Exec(s, input, writeOk, Config(12, 1, [5, 0], 0, []), f + 2);
      { LeftRuns(s, input, writeOk, Config(12, 1, [5, 0], 0, []), f + 1); }
      Exec(s, input, writeOk, Config(13, 0, [5, 0], 0, []), f + 1);
      { PutRuns(s, input, writeOk, Config(13, 0, [5, 0], 0, []), f); }
      Exec(s, input, writeOk, Config(14, 0, [5, 0], 0, [5]), f);
    }
  }
}
