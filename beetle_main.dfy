/** The beetle-lights payload parser (src/beetle-lights/src/main.cpp, `parse_message`):
    the same loop as the xiao parser with only two fields, so a second `'|'` is not a
    separator but is folded into the right field like a digit. */
module BeetleMain {
  import opened Shared
  import opened Decimal

  /** The parser's loop variables: the read position, the field being read (0 before
      `'['`, then 1 and 2), the iteration count and the two accumulators. */
  datatype Cursor = Cursor(head: nat, stage: nat, cursor: nat, left: u32, right: u32)

  const START := Cursor(0, 0, 0, 0, 0)

  /** The loop guard: not at `']'`, and fewer than `max_len` and 255 iterations done. */
  predicate Continues(data: seq<char>, maxLen: int, s: Cursor)
  {
    At(data, s.head) != ']' && s.cursor < maxLen && s.cursor < 255
  }

  /** One iteration of the parser loop. */
  function Step(data: seq<char>, s: Cursor): (r: Cursor)
    requires s.stage <= 2
    ensures r.cursor == s.cursor + 1 && s.stage <= r.stage <= 2 && r.head > s.head
  {
    var open := At(data, s.head) == '[' && s.stage == 0;
    var h1, st1 := if open then s.head + 1 else s.head, if open then 1 else s.stage;
    var first := At(data, h1) == '|' && st1 == 1;
    var h2, st2 := if first then h1 + 1 else h1, if first then 2 else st1;
    var c := At(data, h2);
    Cursor(h2 + 1, st2, s.cursor + 1,
           if st2 == 1 then Acc(s.left, c) else s.left,
           if st2 == 2 then Acc(s.right, c) else s.right)
  }

  /** The parser loop run to its end from `s`. It stops at a `']'`, or once it has run
      `max_len` or 255 iterations in all. */
  function Run(data: seq<char>, maxLen: int, s: Cursor): Cursor
    requires s.stage <= 2 && s.cursor <= 255
    decreases 255 - s.cursor
  {
    if Continues(data, maxLen, s) then Run(data, maxLen, Step(data, s)) else s
  }

  /** The loop ends: the run stops at a `']'`, at `max_len` or at 255 iterations, and it
      only runs past `max_len` iterations if it started past them. */
  lemma {:induction false} RunStops(data: seq<char>, maxLen: int, s: Cursor)
    requires s.stage <= 2 && s.cursor <= 255
    ensures var r := Run(data, maxLen, s);
            && r.stage <= 2 && !Continues(data, maxLen, r)
            && s.cursor <= r.cursor <= 255 && (r.cursor > s.cursor ==> r.cursor <= maxLen)
    decreases 255 - s.cursor
  {
    if Continues(data, maxLen, s) {
      RunStops(data, maxLen, Step(data, s));
    }
  }

  /** What `parse_message(data, max_len)` returns. */
  function Parsed(data: seq<char>, maxLen: int): (u32, u32)
  {
    var s := Run(data, maxLen, START);
    (s.left, s.right)
  }

  /** `parse_message(data, max_len)`. */
  method ParseMessage(data: seq<char>, maxLen: int) returns (r: (u32, u32))
    ensures r == Parsed(data, maxLen)
  {
    var head: nat := 0;
    var left: u32, right: u32 := 0, 0;
    var stage: u8 := 0;
    var cursor: u8 := 0;
    while At(data, head) != ']' && cursor as int < maxLen && cursor < 255
      invariant stage <= 2
      invariant Run(data, maxLen, Cursor(head, stage, cursor, left, right)) == Run(data, maxLen, START)
      decreases 255 - cursor
    {
      ghost var before := Cursor(head, stage, cursor, left, right);
      cursor := cursor + 1;
      if At(data, head) == '[' && stage == 0 {
        stage := 1;
        head := head + 1;
      }
      if At(data, head) == '|' && stage == 1 {
        stage := 2;
        head := head + 1;
      }
      if stage == 1 {
        left := Acc(left, At(data, head));
      } else if stage == 2 {
        right := Acc(right, At(data, head));
      }
      head := head + 1;
      assert Cursor(head, stage, cursor, left, right) == Step(data, before);
    }
    r := (left, right);
  }

  /** Fields the parser has not reached are still 0. */
  predicate Unreached(s: Cursor)
  {
    (s.stage < 1 ==> s.left == 0) && (s.stage < 2 ==> s.right == 0)
  }

  lemma {:induction false} UnreachedStayZero(data: seq<char>, maxLen: int, s: Cursor)
    requires s.stage <= 2 && s.cursor <= 255 && Unreached(s)
    ensures Unreached(Run(data, maxLen, s))
    decreases 255 - s.cursor
  {
    if Continues(data, maxLen, s) {
      UnreachedStayZero(data, maxLen, Step(data, s));
    }
  }

  /** A payload with no `'['` (within the iterations allowed) parses to zeros, and one
      with no `'|'` after it leaves the right field 0. */
  lemma UnreachedFieldsZero(data: seq<char>, maxLen: int)
    ensures var s := Run(data, maxLen, START);
            (s.stage == 0 ==> Parsed(data, maxLen) == (0, 0)) && (s.stage < 2 ==> Parsed(data, maxLen).1 == 0)
  {
    UnreachedStayZero(data, maxLen, START);
  }

  /** Characters before the `'['` contribute nothing: they are skipped one per
      iteration, in the first stage. */
  lemma {:induction false} PrefixSkipped(data: seq<char>, maxLen: int, junk: nat)
    requires junk <= |data| && junk <= maxLen && junk <= 255
    requires forall i :: 0 <= i < junk ==> data[i] != '[' && data[i] != ']'
    ensures Run(data, maxLen, START) == Run(data, maxLen, Cursor(junk, 0, junk, 0, 0))
    decreases junk
  {
    if junk > 0 {
      PrefixSkipped(data, maxLen, junk - 1);
      var s := Cursor(junk - 1, 0, junk - 1, 0, 0);
      assert Continues(data, maxLen, s);
      assert Step(data, s) == Cursor(junk, 0, junk, 0, 0);
    }
  }

  /** A character the current stage folds into its field without changing stage: in the
      second field that includes `'|'`. */
  predicate Plain(c: char, stage: nat)
  {
    c != ']' && (c == '|' ==> stage == 2)
  }

  /** The state after `ds` have been folded into the current stage's field. */
  function Accumulated(s: Cursor, ds: seq<char>): (r: Cursor)
    requires 1 <= s.stage <= 2
    ensures r.head == s.head + |ds| && r.cursor == s.cursor + |ds| && r.stage == s.stage
  {
    var t := s.(head := s.head + |ds|, cursor := s.cursor + |ds|);
    if s.stage == 1 then t.(left := AccAll(s.left, ds)) else t.(right := AccAll(s.right, ds))
  }

  /** One plain character is folded into the current field in one iteration. */
  lemma PlainStep(data: seq<char>, s: Cursor, j: nat)
    requires 1 <= s.stage <= 2 && s.head + j < |data| && Plain(data[s.head + j], s.stage)
    ensures Step(data, Accumulated(s, data[s.head..s.head + j])) == Accumulated(s, data[s.head..s.head + j + 1])
  {
    var ds := data[s.head..s.head + j + 1];
    assert ds[..j] == data[s.head..s.head + j];
  }

  /** An iteration that runs moves the run on to its result. */
  lemma RunStep(data: seq<char>, maxLen: int, a: Cursor, b: Cursor)
    requires a.stage <= 2 && a.cursor < 255 && a.cursor < maxLen && At(data, a.head) != ']'
    requires Step(data, a) == b
    ensures Run(data, maxLen, a) == Run(data, maxLen, b)
  {
  }

  /** A field switch before a plain character: the run goes on as if it started on that
      character in the next stage, `s'`. */
  lemma RunSwitch(data: seq<char>, maxLen: int, s: Cursor, s': Cursor)
    requires (s.stage == 0 && At(data, s.head) == '[') || (s.stage == 1 && At(data, s.head) == '|')
    requires s' == s.(stage := s.stage + 1, head := s.head + 1) && Plain(At(data, s'.head), s'.stage)
    requires s.cursor < 255 && s.cursor < maxLen
    ensures Run(data, maxLen, s) == Run(data, maxLen, s')
  {
    StepSwitch(data, s);
    assert Run(data, maxLen, s) == Run(data, maxLen, Step(data, s));
    assert Run(data, maxLen, s') == Run(data, maxLen, Step(data, s'));
  }

  /** A run of `k` plain characters is folded one per iteration. */
  lemma {:induction false} PlainRun(data: seq<char>, maxLen: int, s: Cursor, k: nat)
    requires 1 <= s.stage <= 2
    requires s.head + k <= |data| && forall i :: s.head <= i < s.head + k ==> Plain(data[i], s.stage)
    requires s.cursor + k <= 255 && s.cursor + k <= maxLen
    ensures Run(data, maxLen, s) == Run(data, maxLen, Accumulated(s, data[s.head..s.head + k]))
  {
    if k == 0 {
      assert Accumulated(s, data[s.head..s.head]) == s;
    } else {
      PlainRun(data, maxLen, s, k - 1);
      PlainRunStep(data, maxLen, s, k - 1);
    }
  }

  /** The `j`-th plain character takes the run one iteration further. */
  lemma PlainRunStep(data: seq<char>, maxLen: int, s: Cursor, j: nat)
    requires 1 <= s.stage <= 2 && s.head + j < |data| && Plain(data[s.head + j], s.stage)
    requires s.cursor + j < 255 && s.cursor + j < maxLen
    ensures Run(data, maxLen, Accumulated(s, data[s.head..s.head + j])) ==
            Run(data, maxLen, Accumulated(s, data[s.head..s.head + j + 1]))
  {
    PlainStep(data, s, j);
    RunStep(data, maxLen, Accumulated(s, data[s.head..s.head + j]), Accumulated(s, data[s.head..s.head + j + 1]));
  }

  /** Plain characters `D` placed at `h`. */
  lemma PlainAt(data: seq<char>, h: nat, D: seq<char>, stage: nat)
    requires forall i :: 0 <= i < |D| ==> Plain(D[i], stage)
    requires |D| >= 1 && h + |D| <= |data| && data[h..h + |D|] == D
    ensures Plain(At(data, h), stage)
    ensures forall i :: h <= i < h + |D| ==> Plain(data[i], stage)
  {
    forall i | h <= i < h + |D| ensures Plain(data[i], stage) {
      assert data[i] == D[i - h];
    }
  }

  /** A field switch and the plain character after it take one iteration together. */
  lemma StepSwitch(data: seq<char>, s: Cursor)
    requires (s.stage == 0 && At(data, s.head) == '[') || (s.stage == 1 && At(data, s.head) == '|')
    requires Plain(At(data, s.head + 1), s.stage + 1)
    ensures Step(data, s) == Step(data, s.(stage := s.stage + 1, head := s.head + 1))
  {
  }

  /** A `'['` (first stage) or `'|'` (second stage) followed by the plain characters `D`,
      which end at `e`. */
  lemma FieldRun(data: seq<char>, maxLen: int, s: Cursor, D: seq<char>, e: nat)
    requires (s.stage == 0 && At(data, s.head) == '[') || (s.stage == 1 && At(data, s.head) == '|')
    requires forall i :: 0 <= i < |D| ==> Plain(D[i], s.stage + 1)
    requires |D| >= 1 && e == s.head + 1 + |D| && e <= |data| && data[s.head + 1..e] == D
    requires s.cursor + |D| <= 255 && s.cursor + |D| <= maxLen
    ensures Run(data, maxLen, s) == Run(data, maxLen, Accumulated(s.(stage := s.stage + 1, head := s.head + 1), D))
  {
    var s' := s.(stage := s.stage + 1, head := s.head + 1);
    PlainAt(data, s'.head, D, s'.stage);
    RunSwitch(data, maxLen, s, s');
    PlainRun(data, maxLen, s', |D|);
  }

  /** The parser run over `[A|B]` whose `'['` is at `h`, whose first `'|'` is at `p` and
      whose `']'` is at `e`, where `A` has no `'|'` and neither has a `']'`. */
  lemma RunPair(data: seq<char>, maxLen: int, h: nat, p: nat, e: nat, A: seq<char>, B: seq<char>)
    requires (forall i :: 0 <= i < |A| ==> Plain(A[i], 1)) && (forall i :: 0 <= i < |B| ==> Plain(B[i], 2))
    requires |A| >= 1 && |B| >= 1 && p == h + 1 + |A| && e == p + 1 + |B| && e < |data|
    requires data[h] == '[' && data[h + 1..p] == A && data[p] == '|' && data[p + 1..e] == B && data[e] == ']'
    requires h + |A| + |B| <= 255 && h + |A| + |B| <= maxLen
    ensures Run(data, maxLen, Cursor(h, 0, h, 0, 0)) == Cursor(e, 2, h + |A| + |B|, AccAll(0, A), AccAll(0, B))
  {
    RunLeft(data, maxLen, h, p, A);
    RunRight(data, maxLen, p, e, h + |A|, AccAll(0, A), B);
  }

  /** The left field `A`, from the `'['` at `h` (reached after `h` iterations) to the
      `'|'` at `p`. */
  lemma RunLeft(data: seq<char>, maxLen: int, h: nat, p: nat, A: seq<char>)
    requires forall i :: 0 <= i < |A| ==> Plain(A[i], 1)
    requires |A| >= 1 && p == h + 1 + |A| && p <= |data| && data[h] == '[' && data[h + 1..p] == A
    requires h + |A| <= 255 && h + |A| <= maxLen
    ensures Run(data, maxLen, Cursor(h, 0, h, 0, 0)) == Run(data, maxLen, Cursor(p, 1, h + |A|, AccAll(0, A), 0))
  {
    var s := Cursor(h, 0, h, 0, 0);
    FieldRun(data, maxLen, s, A, p);
    assert Accumulated(s.(stage := 1, head := h + 1), A) == Cursor(p, 1, h + |A|, AccAll(0, A), 0);
  }

  /** The right field `B`, from the `'|'` at `p` to the closing `']'` at `e`. */
  lemma RunRight(data: seq<char>, maxLen: int, p: nat, e: nat, c: nat, a: u32, B: seq<char>)
    requires forall i :: 0 <= i < |B| ==> Plain(B[i], 2)
    requires |B| >= 1 && e == p + 1 + |B| && e < |data| && data[p] == '|' && data[p + 1..e] == B && data[e] == ']'
    requires c + |B| <= 255 && c + |B| <= maxLen
    ensures Run(data, maxLen, Cursor(p, 1, c, a, 0)) == Cursor(e, 2, c + |B|, a, AccAll(0, B))
  {
    var t := Cursor(p, 1, c, a, 0);
    FieldRun(data, maxLen, t, B, e);
    var r := Cursor(e, 2, c + |B|, a, AccAll(0, B));
    assert Accumulated(t.(stage := 2, head := p + 1), B) == r;
    assert !Continues(data, maxLen, r);
  }

  /** `[A|B]` placed at `h`, in the positional form `RunPair` takes. */
  lemma PairAt(data: seq<char>, h: nat, P: seq<char>, A: seq<char>, B: seq<char>, p: nat, e: nat)
    requires h + |P| <= |data| && data[h..h + |P|] == P && P == "[" + A + "|" + B + "]"
    requires p == h + 1 + |A| && e == p + 1 + |B|
    ensures e < |data| && data[h] == '[' && data[h + 1..p] == A && data[p] == '|'
    ensures data[p + 1..e] == B && data[e] == ']'
  {
    forall i | 0 <= i < |P|
      ensures data[h + i] == P[i]
    {
      assert data[h..h + |P|][i] == P[i];
    }
    assert P[1..1 + |A|] == A && P[2 + |A|..2 + |A| + |B|] == B;
    assert data[h + 1..p] == P[1..1 + |A|];
    assert data[p + 1..e] == P[2 + |A|..2 + |A| + |B|];
  }

  /** The parse of `junk + [A|B] + tail`, with no bracket in `junk`. */
  lemma ParsePair(junk: seq<char>, A: seq<char>, B: seq<char>, tail: seq<char>, maxLen: int)
    requires forall i :: 0 <= i < |junk| ==> junk[i] != '[' && junk[i] != ']'
    requires (forall i :: 0 <= i < |A| ==> Plain(A[i], 1)) && (forall i :: 0 <= i < |B| ==> Plain(B[i], 2))
    requires |A| >= 1 && |B| >= 1 && |junk| + |A| + |B| <= 255 && |junk| + |A| + |B| <= maxLen
    ensures Parsed(junk + ("[" + A + "|" + B + "]") + tail, maxLen) == (AccAll(0, A), AccAll(0, B))
  {
    var P := "[" + A + "|" + B + "]";
    var data := junk + P + tail;
    assert data[..|junk|] == junk;
    assert data[|junk|..|junk| + |P|] == P;
    ParsePairAt(data, |junk|, A, B, maxLen);
  }

  /** The parse of `[A|B]` placed at `h` in `data`, after `h` characters other than
      brackets. */
  lemma ParsePairAt(data: seq<char>, h: nat, A: seq<char>, B: seq<char>, maxLen: int)
    requires (forall i :: 0 <= i < |A| ==> Plain(A[i], 1)) && (forall i :: 0 <= i < |B| ==> Plain(B[i], 2))
    requires |A| >= 1 && |B| >= 1 && h + |A| + |B| <= 255 && h + |A| + |B| <= maxLen
    requires h + |A| + |B| + 3 <= |data| && data[h..h + |A| + |B| + 3] == "[" + A + "|" + B + "]"
    requires forall i :: 0 <= i < h ==> data[i] != '[' && data[i] != ']'
    ensures Parsed(data, maxLen) == (AccAll(0, A), AccAll(0, B))
  {
    var P := "[" + A + "|" + B + "]";
    var p, e := h + 1 + |A|, h + 2 + |A| + |B|;
    PairAt(data, h, P, A, B, p, e);
    PrefixSkipped(data, maxLen, h);
    RunPair(data, maxLen, h, p, e, A, B);
  }

  lemma DigitsArePlain(D: seq<char>, stage: nat)
    requires AllDigits(D)
    ensures forall i :: 0 <= i < |D| ==> Plain(D[i], stage)
  {
  }

  /** The text a two-field sender would write: `"[%d|%d]"`. */
  function Pair(a: nat, b: nat): seq<char>
  {
    "[" + Dec(a) + "|" + Dec(b) + "]"
  }

  /** Round trip: `[a|b]` with `%d` fields, after any prefix without brackets and before
      anything at all, reads back as `(a, b)` when `max_len` and the 255-iteration cap
      leave room for every digit. */
  lemma ParseRoundTrip(junk: seq<char>, a: u32, b: u32, tail: seq<char>, maxLen: int)
    requires forall i :: 0 <= i < |junk| ==> junk[i] != '[' && junk[i] != ']'
    requires |junk| <= 200 && |junk| + |Pair(a, b)| <= maxLen
    ensures Parsed(junk + Pair(a, b) + tail, maxLen) == (a, b)
  {
    DecLengthU32(a);
    DecLengthU32(b);
    DigitsArePlain(Dec(a), 1);
    DigitsArePlain(Dec(b), 2);
    ParsePair(junk, Dec(a), Dec(b), tail, maxLen);
    RoundTrip(a);
    RoundTrip(b);
  }

  /** That text read by this parser: the left field is right, but the right field folds
      in the second `'|'` (as the digit 76) and the third field. */
  lemma ThreeFields(junk: seq<char>, a: u32, b: u32, c: u32, tail: seq<char>, maxLen: int)
    requires forall i :: 0 <= i < |junk| ==> junk[i] != '[' && junk[i] != ']'
    requires |junk| <= 200 && |junk| + |Triple(a, b, c)| <= maxLen
    ensures Parsed(junk + Triple(a, b, c) + tail, maxLen) == (a, AccAll(0, Dec(b) + "|" + Dec(c)))
  {
    var data := junk + Triple(a, b, c) + tail;
    assert data[..|junk|] == junk;
    assert data[|junk|..|junk| + |Triple(a, b, c)|] == Triple(a, b, c);
    ThreeFieldsAt(data, |junk|, a, b, c, maxLen);
  }

  /** The same with `[a|b|c]` placed at `h` in `data`. */
  lemma ThreeFieldsAt(data: seq<char>, h: nat, a: u32, b: u32, c: u32, maxLen: int)
    requires h <= 200 && h + |Triple(a, b, c)| <= |data| && h + |Triple(a, b, c)| <= maxLen
    requires data[h..h + |Triple(a, b, c)|] == Triple(a, b, c)
    requires forall i :: 0 <= i < h ==> data[i] != '[' && data[i] != ']'
    ensures Parsed(data, maxLen) == (a, AccAll(0, Dec(b) + "|" + Dec(c)))
  {
    DecLengthU32(a);
    DecLengthU32(b);
    DecLengthU32(c);
    var A, B := Dec(a), Dec(b) + "|" + Dec(c);
    DigitsArePlain(A, 1);
    JoinedPlain(Dec(b), Dec(c));
    TripleAsPair(A, Dec(b), Dec(c));
    ParsePairAt(data, h, A, B, maxLen);
    RoundTrip(a);
  }

  lemma TripleAsPair(A: seq<char>, B: seq<char>, C: seq<char>)
    ensures "[" + A + "|" + B + "|" + C + "]" == "[" + A + "|" + (B + "|" + C) + "]"
    ensures |"[" + A + "|" + B + "|" + C + "]"| == |A| + |B| + |C| + 4
  {
  }

  /** Two digit strings joined by `'|'` are plain in the second field. */
  lemma JoinedPlain(X: seq<char>, Y: seq<char>)
    requires AllDigits(X) && AllDigits(Y)
    ensures var B := X + "|" + Y; forall i :: 0 <= i < |B| ==> Plain(B[i], 2)
  {
    var B := X + "|" + Y;
    forall i | 0 <= i < |B|
      ensures Plain(B[i], 2)
    {
      if i < |X| {
        assert B[i] == X[i];
      } else if i > |X| {
        assert B[i] == Y[i - |X| - 1];
      }
    }
  }

  /** So the controller's `"[1|2|0]"` reads as `(1, 960)`, not `(1, 2)`. */
  lemma ThreeFieldsExample()
    ensures Parsed("[1|2|0]", 7) == (1, 960)
  {
    ExampleText();
    ThreeFields([], 1, 2, 0, [], 7);
    FoldedSeparator(2, 0);
  }

  lemma ExampleText()
    ensures [] + Triple(1, 2, 0) + [] == "[1|2|0]" && |Triple(1, 2, 0)| == 7
  {
    assert Dec(1) == "1" && Dec(2) == "2" && Dec(0) == "0";
  }

  /** A one-digit `y`, a `'|'` and a one-digit `z` accumulated as one field. */
  lemma FoldedSeparator(y: nat, z: nat)
    requires y < 10 && z < 10
    ensures AccAll(0, Dec(y) + "|" + Dec(z)) == 100 * y + 760 + z
  {
    var B := Dec(y) + "|" + Dec(z);
    assert B == [DigitChar(y), '|', DigitChar(z)];
    assert B[..2][..1] == [DigitChar(y)] && B[..2] == [DigitChar(y), '|'];
    assert AccAll(0, B[..2][..1]) == y;
    assert AccAll(0, B[..2]) == 10 * y + 76;
  }
}
