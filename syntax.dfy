/** The instruction alphabet of the tape language, the filtered token
  * stream, bracket depth and matching, and what a correct bracket table is
  * (src/bf.c). Every definition here is about values; the lexer, parser and
  * executor modules state their contracts with them. */
module BfSyntax {

  /** The eight instruction bytes, in their ASCII encoding. */
  const Right: bv8 := 0x3E  // '>'
  const Left: bv8 := 0x3C   // '<'
  const Inc: bv8 := 0x2B    // '+'
  const Dec: bv8 := 0x2D    // '-'
  const Put: bv8 := 0x2E    // '.'
  const Get: bv8 := 0x2C    // ','
  const Open: bv8 := 0x5B   // '['
  const Close: bv8 := 0x5D  // ']'

  datatype Option<T> = None | Some(value: T)

  /** bracket_t: where a delimiter sits in the compacted program, and an index
    * into the bracket table (its own while it is unmatched, its partner's
    * once matched). */
  datatype Bracket = Bracket(tokenIdx: int, bracketIdx: int)

  /** The instruction characters, in the order the lexer lists them. */
  const Instructions: string := "><+-.,[]"

  /** Whether strchr, scanning the C string `str` from index `i`, finds the
    * byte `b`: `b` is one of the characters from `i` on, or the NUL that
    * terminates the string. */
  predicate StrChr(str: string, i: nat, b: bv8)
    decreases |str| - i
  {
    if i >= |str| then b == 0 else str[i] as int == b as int || StrChr(str, i + 1, b)
  }

  /** The bytes the lexer keeps: the eight instructions and, because strchr
    * also finds the string's terminator, the NUL byte. */
  function IsToken(b: bv8): (r: bool)
    ensures r <==> StrChr(Instructions, 0, b)
  {
    b == Right || b == Left || b == Inc || b == Dec || b == Put || b == Get ||
    b == Open || b == Close || b == 0
  }

  predicate IsBracket(b: bv8) {
    b == Open || b == Close
  }

  /** The bytes of `s` the lexer keeps, in their order in `s`. */
  function Filter(s: seq<bv8>): seq<bv8> {
    if s == [] then [] else
      Filter(s[..|s| - 1]) + (if IsToken(s[|s| - 1]) then [s[|s| - 1]] else [])
  }

  function Delta(b: bv8): int {
    if b == Open then 1 else if b == Close then -1 else 0
  }

  /** The number of `[` minus the number of `]` among the first `j` tokens. */
  function Depth(s: seq<bv8>, j: nat): int
    requires j <= |s|
  {
    if j == 0 then 0 else Depth(s, j - 1) + Delta(s[j - 1])
  }

  /** The number of delimiters among the first `j` tokens. */
  function Count(s: seq<bv8>, j: nat): nat
    requires j <= |s|
  {
    if j == 0 then 0 else Count(s, j - 1) + (if IsBracket(s[j - 1]) then 1 else 0)
  }

  /** No prefix closes more loops than it opens, and the whole opens none
    * that it does not close. */
  predicate Balanced(s: seq<bv8>) {
    Depth(s, |s|) == 0 && forall j :: 0 <= j <= |s| ==> Depth(s, j) >= 0
  }

  /** The `[` at `p` and the `]` at `q` delimit one loop: the depth stays
    * above the depth before `p` strictly between them and returns to it
    * right after `q`. */
  predicate Matches(s: seq<bv8>, p: int, q: int) {
    0 <= p < q < |s| && s[p] == Open && s[q] == Close &&
    Depth(s, q + 1) == Depth(s, p) &&
    forall j :: p < j <= q ==> Depth(s, j) > Depth(s, p)
  }

  /** Entry `k` of the table records the position of the `k`-th delimiter. */
  predicate Located(s: seq<bv8>, table: seq<Bracket>, k: int)
    requires 0 <= k < |table|
  {
    var t := table[k].tokenIdx;
    0 <= t < |s| && IsBracket(s[t]) && Count(s, t) == k
  }

  /** Entry `k` and the entry it points to point at each other and record a
    * matching pair of delimiters. */
  predicate Paired(s: seq<bv8>, table: seq<Bracket>, k: int)
    requires 0 <= k < |table| && Located(s, table, k)
  {
    var t := table[k].tokenIdx;
    var m := table[k].bracketIdx;
    0 <= m < |table| && table[m].bracketIdx == k && 0 <= table[m].tokenIdx < |s| &&
    (s[t] == Open ==> Matches(s, t, table[m].tokenIdx)) &&
    (s[t] == Close ==> Matches(s, table[m].tokenIdx, t))
  }

  /** A complete bracket table for the token stream `s`: one entry per
    * delimiter, in order, each paired with its matching delimiter. */
  predicate TableOf(s: seq<bv8>, table: seq<Bracket>) {
    |table| == Count(s, |s|) &&
    forall k :: 0 <= k < |table| ==> Located(s, table, k) && Paired(s, table, k)
  }

  // ---------------------------------------------------------------------
  // The filtered stream

  lemma {:induction false} FilterLength(s: seq<bv8>)
    ensures |Filter(s)| <= |s|
  {
    if s != [] {
      FilterLength(s[..|s| - 1]);
    }
  }

  /** Bytes the lexer skips add nothing to the stream; a byte it keeps is
    * appended to it. */
  lemma {:induction false} FilterSkip(s: seq<bv8>, a: nat, b: nat)
    requires a <= b <= |s|
    requires forall j :: a <= j < b ==> !IsToken(s[j])
    ensures Filter(s[..b]) == Filter(s[..a])
    decreases b - a
  {
    if a < b {
      FilterSkip(s, a, b - 1);
      assert s[..b][..b - 1] == s[..b - 1];
    }
  }

  lemma FilterKeep(s: seq<bv8>, a: nat)
    requires a < |s| && IsToken(s[a])
    ensures Filter(s[..a + 1]) == Filter(s[..a]) + [s[a]]
  {
    assert s[..a + 1][..a] == s[..a];
  }

  /** Scanning further only extends the stream. */
  lemma {:induction false} FilterPrefix(s: seq<bv8>, a: nat, b: nat)
    requires a <= b <= |s|
    ensures Filter(s[..a]) <= Filter(s[..b])
    decreases b - a
  {
    if a < b {
      FilterPrefix(s, a, b - 1);
      assert s[..b][..b - 1] == s[..b - 1];
    }
  }

  // ---------------------------------------------------------------------
  // Depth and count on prefixes

  lemma {:induction false} DepthPrefix(s: seq<bv8>, s': seq<bv8>, j: nat)
    requires s <= s' && j <= |s|
    ensures Depth(s, j) == Depth(s', j)
  {
    if j > 0 {
      DepthPrefix(s, s', j - 1);
    }
  }

  lemma {:induction false} CountPrefix(s: seq<bv8>, s': seq<bv8>, j: nat)
    requires s <= s' && j <= |s|
    ensures Count(s, j) == Count(s', j)
  {
    if j > 0 {
      CountPrefix(s, s', j - 1);
    }
  }

  lemma {:induction false} CountMono(s: seq<bv8>, a: nat, b: nat)
    requires a <= b <= |s|
    ensures Count(s, a) <= Count(s, b)
    decreases b - a
  {
    if a < b {
      CountMono(s, a, b - 1);
    }
  }

  /** A delimiter at `a` is counted by every longer prefix. */
  lemma CountPast(s: seq<bv8>, a: nat, b: nat)
    requires a < b <= |s| && IsBracket(s[a])
    ensures Count(s, a) < Count(s, b)
  {
    CountMono(s, a + 1, b);
  }

  /** Two delimiters with the same count are the same delimiter. */
  lemma CountInjective(s: seq<bv8>, a: nat, b: nat)
    requires a < |s| && b < |s| && IsBracket(s[a]) && IsBracket(s[b])
    requires Count(s, a) == Count(s, b)
    ensures a == b
  {
    if a < b {
      CountPast(s, a, b);
    } else if b < a {
      CountPast(s, b, a);
    }
  }

  // ---------------------------------------------------------------------
  // Matching

  /** A `[` has at most one matching `]`, and a `]` at most one matching `[`. */
  lemma MatchUnique(s: seq<bv8>, p: int, q: int, p': int, q': int)
    requires Matches(s, p, q) && Matches(s, p', q')
    ensures p == p' <==> q == q'
  {
    ghost var d, d' := Depth(s, q + 1), Depth(s, q' + 1);
    ghost var e, e' := Depth(s, p + 1), Depth(s, p' + 1);
  }

  /** Loops nest: a loop that opens inside another closes inside it too. */
  lemma Nested(s: seq<bv8>, p: int, q: int, p': int, q': int)
    requires Matches(s, p, q) && Matches(s, p', q') && p < p' < q
    ensures q' < q
  {
    ghost var d := Depth(s, q + 1);
  }

  /** Table entries are determined by the token stream, so building the table
    * twice from the same source gives the same table (in this model, where
    * every parse starts the lexer at the beginning of its input). */
  lemma TableUnique(s: seq<bv8>, t1: seq<Bracket>, t2: seq<Bracket>)
    requires TableOf(s, t1) && TableOf(s, t2)
    ensures t1 == t2
  {
    forall k | 0 <= k < |t1|
      ensures t1[k] == t2[k]
    {
      assert Located(s, t1, k) && Paired(s, t1, k);
      assert Located(s, t2, k) && Paired(s, t2, k);
      var p1, p2 := t1[k].tokenIdx, t2[k].tokenIdx;
      CountInjective(s, p1, p2);
      var m1, m2 := t1[k].bracketIdx, t2[k].bracketIdx;
      assert Located(s, t1, m1) && Located(s, t2, m2);
      if s[p1] == Open {
        MatchUnique(s, p1, t1[m1].tokenIdx, p1, t2[m2].tokenIdx);
      } else {
        MatchUnique(s, t1[m1].tokenIdx, p1, t2[m2].tokenIdx, p1);
      }
      CountInjective(s, t1[m1].tokenIdx, t2[m2].tokenIdx);
    }
  }

  /** The entry of the delimiter at `t` is the one at index Count(s, t). */
  lemma EntryOf(s: seq<bv8>, table: seq<Bracket>, t: nat)
    requires TableOf(s, table) && t < |s| && IsBracket(s[t])
    ensures Count(s, t) < |table| && table[Count(s, t)].tokenIdx == t
  {
    CountPast(s, t, |s|);
    var k := Count(s, t);
    assert Located(s, table, k);
    CountInjective(s, t, table[k].tokenIdx);
  }
}
