/** bf_lex (src/bf.c): the scan that finds the next instruction byte. The C
  * function keeps its cursor in a function-local `static int`; here the
  * cursor is passed in and the advanced cursor is returned. */
module BfLexer {
  import opened BfSyntax

  /** Scans `program[i..psize)` for the first byte the lexer keeps. On a hit,
    * returns its index and the cursor just past it; otherwise returns None
    * (the C NULL) with the cursor at `psize`, or left where it was if it was
    * already there or beyond. */
  method Lex(program: array<bv8>, psize: nat, i: nat) returns (tok: Option<nat>, next: nat)
    requires psize <= program.Length
    ensures i <= next
    ensures tok.Some? ==> i <= tok.value < psize && next == tok.value + 1 && IsToken(program[tok.value])
    ensures tok.None? ==> next == (if i < psize then psize else i)
    ensures forall j :: i <= j < (if tok.Some? then tok.value else psize) ==> !IsToken(program[j])
  {
    next := i;
    while next < psize
      invariant i <= next
      invariant if i < psize then next <= psize else next == i
      invariant forall j :: i <= j < next ==> !IsToken(program[j])
    {
      var token := program[next];
      next := next + 1;
      if IsToken(token) {
        return Some(next - 1), next;
      }
    }
    return None, next;
  }
}
