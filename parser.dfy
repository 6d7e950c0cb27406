/** bf_parse (src/bf.c): one pass over the lexer's tokens that compacts the
  * source in place and builds the bracket table, matching each `]` with the
  * most recent unmatched `[` through a stack of pending `[` entries. */
module BfParser {
  import opened BfSyntax
  import opened GrowableStack
  import opened BfLexer

  /** sizeof(bracket_t): two C ints. */
  const BracketSize: int := 8

  /** Whether the `k`-th stack operation of a parse gets the memory it asks
    * for, if it asks for any; operations past the end of `alloc` always do.
    * Operation 0 is the creation of the pending stack, and the `n`-th
    * delimiter of the compacted program (counting from 0) owns operations
    * 2n + 1 (the push on the table) and 2n + 2 (the push on, or the pop
    * from, the pending stack). */
  predicate AllocOk(alloc: seq<bool>, k: nat) {
    k >= |alloc| || alloc[k]
  }

  /** The length, element size and byte size of a stack: what decides
    * whether its next push or pop asks for memory. */
  datatype Shape = Shape(len: nat, elsize: int, size: int)

  ghost function ShapeOf<T>(st: Stack<T>): Shape
    reads st
  {
    Shape(|st.elems|, st.elsize, st.size)
  }

  /** A push onto a stack of this shape needs no reallocation. */
  predicate PushFitsIn(sh: Shape) {
    sh.len * sh.elsize < sh.size
  }

  /** A pop from a (non-empty) stack of this shape shrinks it. */
  predicate PopShrinks(sh: Shape) {
    sh.len - 1 >= DefaultLen / 4 && (sh.len - 1) * sh.elsize < sh.size / 4
  }

  /** Whether bf_parse's switch on token `b` gets through its stack
    * operations, given the shapes of the table and the pending stack and
    * whether its two operations would get their memory: a push fails only
    * when it must grow and cannot, a pop only when it must shrink and
    * cannot, and a `]` fails when no `[` is pending. */
  predicate SwitchOk(b: bv8, table: Shape, pend: Shape, a0: bool, a1: bool) {
    if b == Open then
      (PushFitsIn(table) || a0) && (PushFitsIn(pend) || a1)
    else if b == Close then
      pend.len > 0 && (PushFitsIn(table) || a0) && (!PopShrinks(pend) || a1)
    else
      true
  }

  /** Every allocation succeeds. */
  predicate AllOk(alloc: seq<bool>) {
    forall k :: 0 <= k < |alloc| ==> alloc[k]
  }

  /** The pending stack holds, bottom first, one copy of the table entry of
    * each `[` not yet matched: the one at depth `d` is at index `d`, and
    * every later prefix is deeper than it. */
  ghost predicate PendOk(s: seq<bv8>, table: seq<Bracket>, pend: seq<Bracket>) {
    forall d :: 0 <= d < |pend| ==>
      0 <= pend[d].bracketIdx < |table| && table[pend[d].bracketIdx] == pend[d] &&
      0 <= pend[d].tokenIdx < |s| && s[pend[d].tokenIdx] == Open &&
      Depth(s, pend[d].tokenIdx) == d &&
      forall j :: pend[d].tokenIdx < j <= |s| ==> Depth(s, j) > d
  }

  /** Entry `k` is a `[` still waiting for its `]`: it points at itself, and
    * the pending stack holds it at its depth. */
  ghost predicate Pending(s: seq<bv8>, table: seq<Bracket>, pend: seq<Bracket>, k: int)
    requires 0 <= k < |table| && Located(s, table, k)
  {
    var t := table[k].tokenIdx;
    table[k].bracketIdx == k && s[t] == Open &&
    0 <= Depth(s, t) < |pend| && pend[Depth(s, t)].bracketIdx == k
  }

  /** What holds after the parser has processed the tokens `s`: one entry per
    * delimiter, no `]` without its `[` so far, one pending entry per open
    * loop, and every entry either paired or pending. */
  ghost predicate ParseInv(s: seq<bv8>, table: seq<Bracket>, pend: seq<Bracket>) {
    |table| == Count(s, |s|) &&
    (forall j :: 0 <= j <= |s| ==> Depth(s, j) >= 0) &&
    |pend| == Depth(s, |s|) &&
    PendOk(s, table, pend) &&
    forall k :: 0 <= k < |table| ==>
      Located(s, table, k) && (Paired(s, table, k) || Pending(s, table, pend, k))
  }

  /** Appending a token leaves depth and count of every earlier prefix. */
  lemma Extend(s: seq<bv8>, b: bv8)
    ensures forall j :: 0 <= j <= |s| ==>
      Depth(s + [b], j) == Depth(s, j) && Count(s + [b], j) == Count(s, j)
    ensures Depth(s + [b], |s| + 1) == Depth(s, |s|) + Delta(b)
    ensures Count(s + [b], |s| + 1) == Count(s, |s|) + (if IsBracket(b) then 1 else 0)
  {
    forall j | 0 <= j <= |s|
      ensures Depth(s + [b], j) == Depth(s, j) && Count(s + [b], j) == Count(s, j)
    {
      DepthPrefix(s, s + [b], j);
      CountPrefix(s, s + [b], j);
    }
  }

  lemma ParseStart()
    ensures ParseInv([], [], [])
  {
  }

  /** A byte that is neither `[` nor `]` changes neither table nor stack. */
  lemma ParseOther(s: seq<bv8>, table: seq<Bracket>, pend: seq<Bracket>, b: bv8)
    requires ParseInv(s, table, pend) && !IsBracket(b)
    ensures ParseInv(s + [b], table, pend)
  {
    var s' := s + [b];
    Extend(s, b);
    forall k | 0 <= k < |table|
      ensures Located(s', table, k) && (Paired(s', table, k) || Pending(s', table, pend, k))
    {
      assert Located(s, table, k);
    }
  }

  /** A `[` gets a new entry pointing at itself, pushed on the pending stack. */
  lemma ParseOpen(s: seq<bv8>, table: seq<Bracket>, pend: seq<Bracket>)
    requires ParseInv(s, table, pend)
    ensures var e := Bracket(|s|, |table|);
      ParseInv(s + [Open], table + [e], pend + [e])
  {
    var e := Bracket(|s|, |table|);
    var s', table', pend' := s + [Open], table + [e], pend + [e];
    Extend(s, Open);
    forall k | 0 <= k < |table'|
      ensures Located(s', table', k) && (Paired(s', table', k) || Pending(s', table', pend', k))
    {
      if k < |table| {
        assert Located(s, table, k);
      }
    }
  }

  /** A `]` with a pending `[` gets a new entry, and the two entries are made
    * to point at each other; the `[` leaves the pending stack. */
  lemma ParseClose(s: seq<bv8>, table: seq<Bracket>, pend: seq<Bracket>)
    requires ParseInv(s, table, pend) && |pend| > 0
    ensures var l := pend[|pend| - 1];
      0 <= l.bracketIdx < |table| &&
      ParseInv(s + [Close],
               table[l.bracketIdx := Bracket(l.tokenIdx, |table|)] + [Bracket(|s|, l.bracketIdx)],
               pend[..|pend| - 1])
  {
    var top := |pend| - 1;
    var l := pend[top];
    var lb := l.bracketIdx;
    var s' := s + [Close];
    var table' := table[lb := Bracket(l.tokenIdx, |table|)] + [Bracket(|s|, lb)];
    var pend' := pend[..top];
    Extend(s, Close);
    assert Matches(s', l.tokenIdx, |s|);
    forall d | 0 <= d < |pend'|
      ensures pend'[d].bracketIdx != lb
    {
      // Distinct pending entries sit at distinct depths.
      assert Depth(s, table[pend[d].bracketIdx].tokenIdx) == d;
    }
    assert PendOk(s', table', pend');
    forall k | 0 <= k < |table'|
      ensures Located(s', table', k) && (Paired(s', table', k) || Pending(s', table', pend', k))
    {
      if k == lb {
        assert Located(s, table, lb);
        assert Paired(s', table', k);
      } else if k < |table| {
        assert Located(s, table, k);
        if Paired(s, table, k) {
          assert table[k].bracketIdx != lb;
          assert Paired(s', table', k);
        } else {
          assert Depth(s, table[k].tokenIdx) != top;
          assert Pending(s', table', pend', k);
        }
      } else {
        assert Paired(s', table', k);
      }
    }
  }

  /** With no loop left open, the tokens are balanced and the table complete. */
  lemma ParseDone(s: seq<bv8>, table: seq<Bracket>)
    requires ParseInv(s, table, [])
    ensures Balanced(s) && TableOf(s, table)
  {
    forall k | 0 <= k < |table|
      ensures Located(s, table, k) && Paired(s, table, k)
    {
    }
  }

  /** A prefix that closes a loop it never opened rules out balance. */
  lemma PrefixUnbalanced(s: seq<bv8>, f: seq<bv8>)
    requires s <= f && Depth(s, |s|) < 0
    ensures !Balanced(f)
  {
    DepthPrefix(s, f, |s|);
  }

  /** The `[` case of bf_parse: the entry `{token_idx, bracket_idx}` goes on
    * the table and on the pending stack, each push allowed to fail. */
  method RecordOpen(table: Stack<Bracket>, bstack: Stack<Bracket>, ti: int, bi: int,
                    alloc: seq<bool>, ac: nat, ghost toks: seq<bv8>)
    returns (ok: bool, lBrac: Bracket)
    requires table != bstack && table.Valid() && bstack.Valid()
    requires ParseInv(toks, table.elems, bstack.elems) && ti == |toks| && bi == |table.elems|
    modifies table, bstack
    ensures table.Valid() && bstack.Valid()
    ensures ok ==> ParseInv(toks + [Open], table.elems, bstack.elems) && |table.elems| == bi + 1
    ensures ok == SwitchOk(Open, old(ShapeOf(table)), old(ShapeOf(bstack)), AllocOk(alloc, ac), AllocOk(alloc, ac + 1))
  {
    ParseOpen(toks, table.elems, bstack.elems);
    lBrac := Bracket(ti, bi);
    ok := table.Push(lBrac, AllocOk(alloc, ac));
    if !ok {
      return;
    }
    ok := bstack.Push(lBrac, AllocOk(alloc, ac + 1));
  }

  /** The `]` case of bf_parse once the pending stack is known not to be
    * empty: the entry goes on the table, the most recent pending `[` is
    * popped, and the two entries are made to point at each other. The pop
    * fails only if shrinking the pending stack fails. */
  method RecordClose(table: Stack<Bracket>, bstack: Stack<Bracket>, ti: int, bi: int, lBrac: Bracket,
                     alloc: seq<bool>, ac: nat, ghost toks: seq<bv8>)
    returns (ok: bool, lBrac': Bracket)
    requires table != bstack && table.Valid() && bstack.Valid() && |bstack.elems| > 0
    requires ParseInv(toks, table.elems, bstack.elems) && ti == |toks| && bi == |table.elems|
    modifies table, bstack
    ensures table.Valid() && bstack.Valid()
    ensures ok ==> ParseInv(toks + [Close], table.elems, bstack.elems) && |table.elems| == bi + 1
    ensures ok == SwitchOk(Close, old(ShapeOf(table)), old(ShapeOf(bstack)), AllocOk(alloc, ac), AllocOk(alloc, ac + 1))
  {
    ghost var tbl, pend := table.elems, bstack.elems;
    ParseClose(toks, tbl, pend);
    assert tbl[pend[|pend| - 1].bracketIdx] == pend[|pend| - 1];
    var rBrac := Bracket(ti, bi);
    ok := table.Push(rBrac, AllocOk(alloc, ac));
    lBrac' := lBrac;
    if !ok {
      return;
    }
    var r;
    r, lBrac' := bstack.Pop(lBrac, AllocOk(alloc, ac + 1));
    if r == 0 {
      return false, lBrac';
    }
    table.elems := table.elems[lBrac'.bracketIdx := table.elems[lBrac'.bracketIdx].(bracketIdx := rBrac.bracketIdx)];
    table.elems := table.elems[rBrac.bracketIdx := table.elems[rBrac.bracketIdx].(bracketIdx := lBrac'.bracketIdx)];
    assert table.elems == tbl[lBrac'.bracketIdx := Bracket(lBrac'.tokenIdx, |tbl|)] + [Bracket(ti, lBrac'.bracketIdx)];
  }

  /** The switch of bf_parse's loop on the token `b`, at index `ti` of the
    * compacted program. `ok` false is one of its `return -1` exits: a
    * failed allocation, or a `]` that closes more loops than were opened. */
  method HandleToken(table: Stack<Bracket>, bstack: Stack<Bracket>, b: bv8, ti: int, bi: int,
                     lBrac: Bracket, alloc: seq<bool>, ac: nat, ghost toks: seq<bv8>)
    returns (ok: bool, bi': int, lBrac': Bracket)
    requires table != bstack && table.Valid() && bstack.Valid()
    requires ParseInv(toks, table.elems, bstack.elems) && ti == |toks| && bi == |table.elems|
    modifies table, bstack
    ensures table.Valid() && bstack.Valid()
    ensures ok ==> ParseInv(toks + [b], table.elems, bstack.elems) && bi' == |table.elems|
    ensures ok ==> bi' == bi + (if IsBracket(b) then 1 else 0)
    ensures ok == SwitchOk(b, old(ShapeOf(table)), old(ShapeOf(bstack)), AllocOk(alloc, ac), AllocOk(alloc, ac + 1))
    ensures !ok ==> !AllocOk(alloc, ac) || !AllocOk(alloc, ac + 1) || Depth(toks + [b], |toks| + 1) < 0
  {
    ok, bi', lBrac' := true, bi, lBrac;
    if b == Open {
      ok, lBrac' := RecordOpen(table, bstack, ti, bi, alloc, ac, toks);
      if ok {
        bi' := bi + 1;
      }
    } else if b == Close {
      if |bstack.elems| == 0 {
        Extend(toks, Close);
        return false, bi, lBrac;
      }
      ok, lBrac' := RecordClose(table, bstack, ti, bi, lBrac, alloc, ac, toks);
      if ok {
        bi' := bi + 1;
      }
    } else {
      ParseOther(toks, table.elems, bstack.elems, b);
    }
  }

  /** The tokens of `orig[..upto]` have been copied, in order, to the front
    * of `program`, and nothing from index `|toks|` on has been written. */
  ghost predicate Copied(program: array<bv8>, orig: seq<bv8>, upto: nat, toks: seq<bv8>)
    reads program
  {
    |orig| == program.Length && |toks| <= upto <= |orig| &&
    toks == Filter(orig[..upto]) &&
    program[..|toks|] == toks &&
    forall j :: |toks| <= j < program.Length ==> program[j] == orig[j]
  }

  /** The compaction half of bf_parse's loop invariant, for the original
    * contents `orig` of `program`: `tok` and `cursor` are what the lexer last
    * returned, and the tokens before `tok` have been copied. */
  ghost predicate Compacted(program: array<bv8>, orig: seq<bv8>, psize: nat,
                            tok: Option<nat>, cursor: nat, toks: seq<bv8>)
    reads program
  {
    cursor <= psize <= |orig| &&
    (tok.Some? ==> tok.value < psize && cursor == tok.value + 1 && IsToken(orig[tok.value])) &&
    (tok.None? ==> cursor == psize) &&
    Copied(program, orig, if tok.Some? then tok.value else psize, toks)
  }

  /** The untouched part of `program` is the original. */
  lemma CopiedTail(program: array<bv8>, orig: seq<bv8>, upto: nat, toks: seq<bv8>)
    requires Copied(program, orig, upto, toks)
    ensures program[|toks|..] == orig[|toks|..]
  {
    var n := |toks|;
    forall j | 0 <= j < program.Length - n
      ensures program[n..][j] == orig[n..][j]
    {
      assert program[n + j] == orig[n + j];
    }
  }

  /** When the lexer is exhausted, the copied tokens are the whole stream;
    * with no `[` left pending they are balanced and the table is complete,
    * and with one left they are not balanced. */
  lemma ParseEnd(program: array<bv8>, orig: seq<bv8>, psize: nat, cursor: nat,
                 toks: seq<bv8>, table: seq<Bracket>, pend: seq<Bracket>)
    requires Compacted(program, orig, psize, None, cursor, toks) && ParseInv(toks, table, pend)
    ensures Filter(orig[..psize]) == toks && |toks| <= psize
    ensures pend == [] ==>
      Balanced(toks) && TableOf(toks, table) && program[..|toks|] == toks &&
      program[|toks|..] == orig[|toks|..]
    ensures pend != [] ==> !Balanced(toks)
  {
    if pend == [] {
      ParseDone(toks, table);
      CopiedTail(program, orig, psize, toks);
    }
  }

  /** `program[token_idx] = *token`: the token at `k` joins the copied ones. */
  method CopyToken(program: array<bv8>, ghost orig: seq<bv8>, k: nat, ti: nat, ghost toks: seq<bv8>)
    returns (b: bv8)
    requires Copied(program, orig, k, toks) && ti == |toks| && k < |orig| && IsToken(orig[k])
    modifies program
    ensures b == orig[k] && Copied(program, orig, k + 1, toks + [b])
  {
    b := program[k];
    assert b == orig[k];
    assert orig[..k + 1][..k] == orig[..k];
    program[ti] := b;
    assert program[..ti + 1] == toks + [b];
  }

  /** The next call of the lexer: the bytes it skips are no tokens, so the
    * copied tokens are still all the tokens up to the one it returns. */
  method NextToken(program: array<bv8>, psize: nat, cursor: nat, ghost orig: seq<bv8>, ghost toks: seq<bv8>)
    returns (tok: Option<nat>, cursor': nat)
    requires cursor <= psize <= program.Length && Copied(program, orig, cursor, toks)
    ensures Compacted(program, orig, psize, tok, cursor', toks)
    ensures cursor <= cursor' && (tok.Some? ==> cursor < cursor')
  {
    tok, cursor' := Lex(program, psize, cursor);
    ghost var upto := if tok.Some? then tok.value else psize;
    forall j | cursor <= j < upto
      ensures !IsToken(orig[j])
    {
      assert program[j] == orig[j];
    }
    FilterSkip(orig, cursor, upto);
  }

  /** One iteration of bf_parse's loop: the token at `tok` is copied to index
    * `ti`, the switch handles it, and the lexer is called again. `ok` false is
    * one of the loop's `return -1` exits. */
  method ParseStep(program: array<bv8>, psize: nat, table: Stack<Bracket>, bstack: Stack<Bracket>,
                   tok: Option<nat>, cursor: nat, ti: int, bi: int, lBrac: Bracket,
                   alloc: seq<bool>, ac: nat, ghost orig: seq<bv8>, ghost toks: seq<bv8>)
    returns (ok: bool, tok': Option<nat>, cursor': nat, bi': int, lBrac': Bracket, ac': nat, ghost toks': seq<bv8>)
    requires tok.Some? && table != bstack && table.Valid() && bstack.Valid()
    requires Compacted(program, orig, psize, tok, cursor, toks) && ti == |toks|
    requires ParseInv(toks, table.elems, bstack.elems) && bi == |table.elems|
    modifies program, table, bstack
    ensures table.Valid() && bstack.Valid()
    ensures ok ==>
      Compacted(program, orig, psize, tok', cursor', toks') && |toks'| == ti + 1 &&
      ParseInv(toks', table.elems, bstack.elems) && bi' == |table.elems| &&
      cursor <= cursor' && (tok'.Some? ==> cursor < cursor')
    ensures ok ==> ac' - ac == 2 * (bi' - bi)
    ensures ok == SwitchOk(orig[tok.value], old(ShapeOf(table)), old(ShapeOf(bstack)),
                           AllocOk(alloc, ac), AllocOk(alloc, ac + 1))
    ensures !ok ==> !AllocOk(alloc, ac) || !AllocOk(alloc, ac + 1) || !Balanced(Filter(orig[..psize]))
  {
    tok', cursor' := None, cursor;
    ac' := ac;
    var b := CopyToken(program, orig, tok.value, ti, toks);
    toks' := toks + [b];
    ok, bi', lBrac' := HandleToken(table, bstack, b, ti, bi, lBrac, alloc, ac, toks);
    if !ok {
      if AllocOk(alloc, ac) && AllocOk(alloc, ac + 1) {
        FilterPrefix(orig, cursor, psize);
        PrefixUnbalanced(toks', Filter(orig[..psize]));
      }
      return;
    }
    if IsBracket(b) {
      ac' := ac + 2;
    }
    tok', cursor' := NextToken(program, psize, cursor, orig, toks');
  }

  /** bf_parse. `alloc` decides which stack operations get their memory,
    * numbered as for `AllocOk`. Returns the compacted length, or -1 on an
    * unmatched `]`, an unmatched `[`, or a failed allocation. */
  method Parse(program: array<bv8>, psize: nat, table: Stack<Bracket>, alloc: seq<bool>)
    returns (n: int)
    requires psize <= program.Length
    requires table.Valid() && table.elems == []
    modifies program, table
    ensures table.Valid()
    ensures n >= -1
    ensures !Balanced(Filter(old(program[..psize]))) ==> n == -1
    ensures AllOk(alloc) && Balanced(Filter(old(program[..psize]))) ==> n != -1
    ensures !AllocOk(alloc, 0) ==> n == -1
    ensures n != -1 ==>
      var toks := Filter(old(program[..psize]));
      0 <= n <= psize && n == |toks| && program[..n] == toks && program[n..] == old(program[n..]) &&
      TableOf(toks, table.elems)
  {
    ghost var orig := program[..];
    assert orig[..psize] == old(program[..psize]);
    var bstack, created := Stack<Bracket>.Create(BracketSize, AllocOk(alloc, 0));
    if !created {
      return -1;
    }
    var ac: nat := 1;
    var ti, bi := 0, 0;
    var lBrac := Bracket(0, 0);
    assert orig[..0] == [];
    var tok, cursor := NextToken(program, psize, 0, orig, []);
    ghost var toks: seq<bv8> := [];
    ParseStart();
    while tok.Some?
      invariant Compacted(program, orig, psize, tok, cursor, toks) && ti == |toks|
      invariant fresh(bstack) && table.Valid() && bstack.Valid()
      invariant ParseInv(toks, table.elems, bstack.elems) && bi == |table.elems|
      invariant ac == 2 * bi + 1
      decreases psize - cursor + (if tok.Some? then 1 else 0)
    {
      var ok;
      ok, tok, cursor, bi, lBrac, ac, toks := ParseStep(program, psize, table, bstack, tok, cursor, ti, bi, lBrac, alloc, ac, orig, toks);
      if !ok {
        return -1;
      }
      ti := ti + 1;
    }
    ParseEnd(program, orig, psize, cursor, toks, table.elems, bstack.elems);
    if |bstack.elems| > 0 {
      // Unmatched '[': the tokens open loops they never close.
      return -1;
    }
    return ti;
  }
}
