/** The xiao-lights firmware around the level (src/xiao-lights/src/main.cpp): the
    `[x|y|z]` payload parser, the level file walk in `setup` and `loop`, and the
    globals those mutate. */
module XiaoMain {
  import opened Shared
  import opened Decimal
  import opened XiaoLevelText
  import XiaoTypes

  /** The parser's loop variables: the read position, the field being read (0 before
      `'['`, then 1, 2 and 3), the iteration count and the three accumulators. */
  datatype Cursor = Cursor(head: nat, stage: nat, cursor: nat, left: u32, right: u32, up: u32)

  const START := Cursor(0, 0, 0, 0, 0, 0)

  /** The loop guard: not at `']'`, and fewer than `max_len` and 255 iterations done. */
  predicate Continues(data: seq<char>, maxLen: int, s: Cursor)
  {
    At(data, s.head) != ']' && s.cursor < maxLen && s.cursor < 255
  }

  /** One iteration of the parser loop. */
  function Step(data: seq<char>, s: Cursor): (r: Cursor)
    requires s.stage <= 3
    ensures r.cursor == s.cursor + 1 && s.stage <= r.stage <= 3 && r.head > s.head
  {
    var open := At(data, s.head) == '[' && s.stage == 0;
    var h1, st1 := if open then s.head + 1 else s.head, if open then 1 else s.stage;
    var first := At(data, h1) == '|' && st1 == 1;
    var h2, st2 := if first then h1 + 1 else h1, if first then 2 else st1;
    var second := At(data, h2) == '|' && st2 == 2;
    var h3, st3 := if second then h2 + 1 else h2, if second then 3 else st2;
    var c := At(data, h3);
    Cursor(h3 + 1, st3, s.cursor + 1,
           if st3 == 1 then Acc(s.left, c) else s.left,
           if st3 == 2 then Acc(s.right, c) else s.right,
           if st3 == 3 then Acc(s.up, c) else s.up)
  }

  /** The parser loop run to its end from `s`. It stops at a `']'`, or once it has run
      `max_len` or 255 iterations in all. */
  function Run(data: seq<char>, maxLen: int, s: Cursor): Cursor
    requires s.stage <= 3 && s.cursor <= 255
    decreases 255 - s.cursor
  {
    if Continues(data, maxLen, s) then Run(data, maxLen, Step(data, s)) else s
  }

  /** The loop ends: the run stops at a `']'`, at `max_len` or at 255 iterations, and it
      only runs past `max_len` iterations if it started past them. */
  lemma {:induction false} RunStops(data: seq<char>, maxLen: int, s: Cursor)
    requires s.stage <= 3 && s.cursor <= 255
    ensures var r := Run(data, maxLen, s);
            && r.stage <= 3 && !Continues(data, maxLen, r)
            && s.cursor <= r.cursor <= 255 && (r.cursor > s.cursor ==> r.cursor <= maxLen)
    decreases 255 - s.cursor
  {
    if Continues(data, maxLen, s) {
      RunStops(data, maxLen, Step(data, s));
    }
  }

  /** What `parse_message(data, max_len)` returns: the third field is narrowed to
      `uint8_t` by the return type. */
  function Parsed(data: seq<char>, maxLen: int): (u32, u32, u8)
  {
    var s := Run(data, maxLen, START);
    (s.left, s.right, s.up % 0x100)
  }

  /** `parse_message(data, max_len)`. */
  method ParseMessage(data: seq<char>, maxLen: int) returns (r: (u32, u32, u8))
    ensures r == Parsed(data, maxLen)
  {
    var head: nat := 0;
    var left: u32, right: u32, up: u32 := 0, 0, 0;
    var stage: u8 := 0;
    var cursor: u8 := 0;
    while At(data, head) != ']' && cursor as int < maxLen && cursor < 255
      invariant stage <= 3
      invariant Run(data, maxLen, Cursor(head, stage, cursor, left, right, up)) == Run(data, maxLen, START)
      decreases 255 - cursor
    {
      ghost var before := Cursor(head, stage, cursor, left, right, up);
      cursor := cursor + 1;
      if At(data, head) == '[' && stage == 0 {
        stage := 1;
        head := head + 1;
      }
      if At(data, head) == '|' && stage == 1 {
        stage := 2;
        head := head + 1;
      }
      if At(data, head) == '|' && stage == 2 {
        stage := 3;
        head := head + 1;
      }
      if stage == 1 {
        left := Acc(left, At(data, head));
      } else if stage == 2 {
        right := Acc(right, At(data, head));
      } else if stage == 3 {
        up := Acc(up, At(data, head));
      }
      head := head + 1;
      assert Cursor(head, stage, cursor, left, right, up) == Step(data, before);
    }
    r := (left, right, up % 0x100);
  }

  /** Fields the parser has not reached are still 0. */
  predicate Unreached(s: Cursor)
  {
    (s.stage < 1 ==> s.left == 0) && (s.stage < 2 ==> s.right == 0) && (s.stage < 3 ==> s.up == 0)
  }

  lemma {:induction false} UnreachedStayZero(data: seq<char>, maxLen: int, s: Cursor)
    requires s.stage <= 3 && s.cursor <= 255 && Unreached(s)
    ensures Unreached(Run(data, maxLen, s))
    decreases 255 - s.cursor
  {
    if Continues(data, maxLen, s) {
      UnreachedStayZero(data, maxLen, Step(data, s));
    }
  }

  /** A payload with no `'['` (within the iterations allowed) parses to all zeros. */
  lemma NoBracketNoFields(data: seq<char>, maxLen: int)
    ensures var s := Run(data, maxLen, START); s.stage == 0 ==> Parsed(data, maxLen) == (0, 0, 0)
  {
    UnreachedStayZero(data, maxLen, START);
  }

  /** Characters before the `'['` contribute nothing: they are skipped one per
      iteration, in the first stage. */
  lemma {:induction false} PrefixSkipped(data: seq<char>, maxLen: int, junk: nat)
    requires junk <= |data| && junk <= maxLen && junk <= 255
    requires forall i :: 0 <= i < junk ==> data[i] != '[' && data[i] != ']'
    ensures Run(data, maxLen, START) == Run(data, maxLen, Cursor(junk, 0, junk, 0, 0, 0))
    decreases junk
  {
    if junk > 0 {
      PrefixSkipped(data, maxLen, junk - 1);
      var s := Cursor(junk - 1, 0, junk - 1, 0, 0, 0);
      assert Continues(data, maxLen, s);
      assert Step(data, s) == Cursor(junk, 0, junk, 0, 0, 0);
    }
  }

  /** A character the current stage folds into its field without changing stage. */
  predicate Plain(c: char, stage: nat)
  {
    c != ']' && (c == '|' ==> stage == 3)
  }

  /** The state after `ds` have been folded into the current stage's field. */
  function Accumulated(s: Cursor, ds: seq<char>): (r: Cursor)
    requires 1 <= s.stage <= 3
    ensures r.head == s.head + |ds| && r.cursor == s.cursor + |ds| && r.stage == s.stage
  {
    var t := s.(head := s.head + |ds|, cursor := s.cursor + |ds|);
    if s.stage == 1 then t.(left := AccAll(s.left, ds))
    else if s.stage == 2 then t.(right := AccAll(s.right, ds))
    else t.(up := AccAll(s.up, ds))
  }

  /** One plain character is folded into the current field in one iteration. */
  lemma PlainStep(data: seq<char>, s: Cursor, j: nat)
    requires 1 <= s.stage <= 3 && s.head + j < |data| && Plain(data[s.head + j], s.stage)
    ensures Step(data, Accumulated(s, data[s.head..s.head + j])) == Accumulated(s, data[s.head..s.head + j + 1])
  {
    var ds := data[s.head..s.head + j + 1];
    assert ds[..j] == data[s.head..s.head + j];
  }

  /** An iteration that runs moves the run on to its result. */
  lemma RunStep(data: seq<char>, maxLen: int, a: Cursor, b: Cursor)
    requires a.stage <= 3 && a.cursor < 255 && a.cursor < maxLen && At(data, a.head) != ']'
    requires Step(data, a) == b
    ensures Run(data, maxLen, a) == Run(data, maxLen, b)
  {
  }

  /** A field switch and the plain character after it take one iteration together:
      the same iteration as starting on that character in the next stage. */
  lemma StepSwitch(data: seq<char>, s: Cursor)
    requires (s.stage == 0 && At(data, s.head) == '[') || (1 <= s.stage <= 2 && At(data, s.head) == '|')
    requires Plain(At(data, s.head + 1), s.stage + 1)
    ensures Step(data, s) == Step(data, s.(stage := s.stage + 1, head := s.head + 1))
  {
  }

  /** A field switch before a plain character: the run goes on as if it started on that
      character in the next stage, `s'`. */
  lemma RunSwitch(data: seq<char>, maxLen: int, s: Cursor, s': Cursor)
    requires (s.stage == 0 && At(data, s.head) == '[') || (1 <= s.stage <= 2 && At(data, s.head) == '|')
    requires s' == s.(stage := s.stage + 1, head := s.head + 1) && Plain(At(data, s'.head), s'.stage)
    requires s.cursor < 255 && s.cursor < maxLen
    ensures Run(data, maxLen, s) == Run(data, maxLen, s')
  {
    StepSwitch(data, s);
    assert Run(data, maxLen, s) == Run(data, maxLen, Step(data, s));
    assert Run(data, maxLen, s') == Run(data, maxLen, Step(data, s'));
  }

  /** A run of `k` plain characters is folded one per iteration. */
  lemma {:induction false} PlainRun(data: seq<char>, maxLen: int, s: Cursor, k: nat)
    requires 1 <= s.stage <= 3
    requires s.head + k <= |data| && forall i :: s.head <= i < s.head + k ==> Plain(data[i], s.stage)
    requires s.cursor + k <= 255 && s.cursor + k <= maxLen
    ensures Run(data, maxLen, s) == Run(data, maxLen, Accumulated(s, data[s.head..s.head + k]))
  {
    if k == 0 {
      assert Accumulated(s, data[s.head..s.head]) == s;
    } else {
      PlainRun(data, maxLen, s, k - 1);
      PlainRunStep(data, maxLen, s, k - 1);
    }
  }

  /** The `j`-th plain character takes the run one iteration further. */
  lemma PlainRunStep(data: seq<char>, maxLen: int, s: Cursor, j: nat)
    requires 1 <= s.stage <= 3 && s.head + j < |data| && Plain(data[s.head + j], s.stage)
    requires s.cursor + j < 255 && s.cursor + j < maxLen
    ensures Run(data, maxLen, Accumulated(s, data[s.head..s.head + j])) ==
            Run(data, maxLen, Accumulated(s, data[s.head..s.head + j + 1]))
  {
    PlainStep(data, s, j);
    RunStep(data, maxLen, Accumulated(s, data[s.head..s.head + j]), Accumulated(s, data[s.head..s.head + j + 1]));
  }

  /** Digits are plain in every field. */
  lemma DigitsPlain(data: seq<char>, h: nat, D: seq<char>, stage: nat)
    requires AllDigits(D) && |D| >= 1 && h + |D| <= |data| && data[h..h + |D|] == D
    ensures Plain(At(data, h), stage)
    ensures forall i :: h <= i < h + |D| ==> Plain(data[i], stage)
  {
    forall i | h <= i < h + |D| ensures Plain(data[i], stage) {
      assert data[i] == D[i - h];
    }
  }

  /** A `'['` (first stage) or `'|'` (second or third stage) followed by the digits `D`:
      the field switch and the first digit take one iteration, then each further digit
      one more. */
  lemma FieldRun(data: seq<char>, maxLen: int, s: Cursor, D: seq<char>)
    requires (s.stage == 0 && At(data, s.head) == '[') || (1 <= s.stage <= 2 && At(data, s.head) == '|')
    requires AllDigits(D) && |D| >= 1 && s.head + 1 + |D| <= |data| && data[s.head + 1..s.head + 1 + |D|] == D
    requires s.cursor + |D| <= 255 && s.cursor + |D| <= maxLen
    ensures Run(data, maxLen, s) == Run(data, maxLen, Accumulated(s.(stage := s.stage + 1, head := s.head + 1), D))
  {
    var s' := s.(stage := s.stage + 1, head := s.head + 1);
    DigitsPlain(data, s'.head, D, s'.stage);
    RunSwitch(data, maxLen, s, s');
    PlainRun(data, maxLen, s', |D|);
    assert data[s'.head..s'.head + |D|] == D;
  }

  /** The last field `C` of a payload, from its `'|'` at `p` to the closing `']'` at `e`. */
  lemma RunLastField(data: seq<char>, maxLen: int, p: nat, e: nat, c: nat, a: u32, b: u32, C: seq<char>)
    requires AllDigits(C) && |C| >= 1 && e == p + 1 + |C| && e < |data|
    requires data[p] == '|' && data[p + 1..e] == C && data[e] == ']'
    requires c + |C| <= 255 && c + |C| <= maxLen
    ensures Run(data, maxLen, Cursor(p, 2, c, a, b, 0)) == Cursor(e, 3, c + |C|, a, b, AccAll(0, C))
  {
    var s := Cursor(p, 2, c, a, b, 0);
    FieldRun(data, maxLen, s, C);
    var r := Cursor(e, 3, c + |C|, a, b, AccAll(0, C));
    assert Accumulated(s.(stage := 3, head := p + 1), C) == r;
    assert !Continues(data, maxLen, r);
  }

  /** The middle field `B`, from the `'|'` at `p` to the `'|'` at `q`. */
  lemma RunMiddleField(data: seq<char>, maxLen: int, p: nat, q: nat, c: nat, a: u32, B: seq<char>)
    requires AllDigits(B) && |B| >= 1 && q == p + 1 + |B| && q <= |data|
    requires data[p] == '|' && data[p + 1..q] == B
    requires c + |B| <= 255 && c + |B| <= maxLen
    ensures Run(data, maxLen, Cursor(p, 1, c, a, 0, 0)) == Run(data, maxLen, Cursor(q, 2, c + |B|, a, AccAll(0, B), 0))
  {
    var s := Cursor(p, 1, c, a, 0, 0);
    FieldRun(data, maxLen, s, B);
    assert Accumulated(s.(stage := 2, head := p + 1), B) == Cursor(q, 2, c + |B|, a, AccAll(0, B), 0);
  }

  /** The last two fields `B` and `C`, from the first `'|'` at `p`; the second `'|'`
      is at `q` and the `']'` at `e`. */
  lemma RunLastFields(data: seq<char>, maxLen: int, p: nat, q: nat, e: nat, c: nat, a: u32, B: seq<char>, C: seq<char>)
    requires AllDigits(B) && AllDigits(C) && |B| >= 1 && |C| >= 1
    requires q == p + 1 + |B| && e == q + 1 + |C| && e < |data|
    requires data[p] == '|' && data[p + 1..q] == B && data[q] == '|' && data[q + 1..e] == C && data[e] == ']'
    requires c + |B| + |C| <= 255 && c + |B| + |C| <= maxLen
    ensures Run(data, maxLen, Cursor(p, 1, c, a, 0, 0)) == Cursor(e, 3, c + |B| + |C|, a, AccAll(0, B), AccAll(0, C))
  {
    RunMiddleField(data, maxLen, p, q, c, a, B);
    RunLastField(data, maxLen, q, e, c + |B|, a, AccAll(0, B), C);
  }

  /** The first field `A`, from the `'['` at `h` (reached after `h` iterations) to the
      `'|'` at `p`. */
  lemma RunFirstField(data: seq<char>, maxLen: int, h: nat, p: nat, A: seq<char>)
    requires AllDigits(A) && |A| >= 1 && p == h + 1 + |A| && p <= |data|
    requires data[h] == '[' && data[h + 1..p] == A
    requires h + |A| <= 255 && h + |A| <= maxLen
    ensures Run(data, maxLen, Cursor(h, 0, h, 0, 0, 0)) == Run(data, maxLen, Cursor(p, 1, h + |A|, AccAll(0, A), 0, 0))
  {
    var s := Cursor(h, 0, h, 0, 0, 0);
    FieldRun(data, maxLen, s, A);
    assert Accumulated(s.(stage := 1, head := h + 1), A) == Cursor(p, 1, h + |A|, AccAll(0, A), 0, 0);
  }

  /** The parser run over a payload `[A|B|C]` of digit strings whose `'['` is at `h`,
      whose `'|'`s are at `p` and `q` and whose `']'` is at `e`. */
  lemma RunPayload(data: seq<char>, maxLen: int, h: nat, p: nat, q: nat, e: nat, A: seq<char>, B: seq<char>, C: seq<char>)
    requires AllDigits(A) && AllDigits(B) && AllDigits(C) && |A| >= 1 && |B| >= 1 && |C| >= 1
    requires p == h + 1 + |A| && q == p + 1 + |B| && e == q + 1 + |C| && e < |data|
    requires data[h] == '[' && data[h + 1..p] == A && data[p] == '|' && data[p + 1..q] == B
    requires data[q] == '|' && data[q + 1..e] == C && data[e] == ']'
    requires h + |A| + |B| + |C| <= 255 && h + |A| + |B| + |C| <= maxLen
    ensures Run(data, maxLen, Cursor(h, 0, h, 0, 0, 0)) ==
            Cursor(e, 3, h + |A| + |B| + |C|, AccAll(0, A), AccAll(0, B), AccAll(0, C))
  {
    RunFirstField(data, maxLen, h, p, A);
    RunLastFields(data, maxLen, p, q, e, h + |A|, AccAll(0, A), B, C);
  }

  /** Round trip: the payload `[a|b|c]`, after any characters other than brackets and
      given enough iterations, parses back to `(a, b, c)` with `c` narrowed to
      `uint8_t`; whatever follows the `']'` is never read. */
  lemma ParseRoundTrip(junk: seq<char>, a: u32, b: u32, c: u32, tail: seq<char>, maxLen: int)
    requires forall i :: 0 <= i < |junk| ==> junk[i] != '[' && junk[i] != ']'
    requires |junk| <= 200 && |junk| + |Triple(a, b, c)| <= maxLen
    ensures Parsed(junk + Triple(a, b, c) + tail, maxLen) == (a, b, c % 0x100)
  {
    var data := junk + Triple(a, b, c) + tail;
    assert data[..|junk|] == junk;
    assert data[|junk|..|junk| + |Triple(a, b, c)|] == Triple(a, b, c);
    ParseAt(data, |junk|, a, b, c, maxLen);
  }

  /** The round trip with the payload `[a|b|c]` at `h` in `data`, after `h` characters
      other than brackets. */
  lemma ParseAt(data: seq<char>, h: nat, a: u32, b: u32, c: u32, maxLen: int)
    requires h <= 200 && h + |Triple(a, b, c)| <= |data| && h + |Triple(a, b, c)| <= maxLen
    requires forall i :: 0 <= i < h ==> data[i] != '[' && data[i] != ']'
    requires data[h..h + |Triple(a, b, c)|] == Triple(a, b, c)
    ensures Parsed(data, maxLen) == (a, b, c % 0x100)
  {
    var P := Triple(a, b, c);
    var A, B, C := Dec(a), Dec(b), Dec(c);
    DecLengthU32(a);
    DecLengthU32(b);
    DecLengthU32(c);
    PayloadShape(P, A, B, C);
    var p, q, e := h + 1 + |A|, h + 2 + |A| + |B|, h + 3 + |A| + |B| + |C|;
    PayloadAt(data, h, P, A, B, C, p, q, e);
    PrefixSkipped(data, maxLen, h);
    RunPayload(data, maxLen, h, p, q, e, A, B, C);
    RoundTrip(a);
    RoundTrip(b);
    RoundTrip(c);
  }

  /** Where the fields and separators of `[A|B|C]` sit. */
  lemma PayloadShape(P: seq<char>, A: seq<char>, B: seq<char>, C: seq<char>)
    requires P == "[" + A + "|" + B + "|" + C + "]"
    ensures |P| == |A| + |B| + |C| + 4
    ensures P[0] == '[' && P[1..1 + |A|] == A && P[1 + |A|] == '|'
    ensures P[2 + |A|..2 + |A| + |B|] == B && P[2 + |A| + |B|] == '|'
    ensures P[3 + |A| + |B|..3 + |A| + |B| + |C|] == C && P[3 + |A| + |B| + |C|] == ']'
  {
  }

  /** A payload `[A|B|C]` placed at `h` in `data`, in the positional form the parser
      lemmas take. */
  lemma PayloadAt(data: seq<char>, h: nat, P: seq<char>, A: seq<char>, B: seq<char>, C: seq<char>, p: nat, q: nat, e: nat)
    requires h + |P| <= |data| && data[h..h + |P|] == P
    requires P == "[" + A + "|" + B + "|" + C + "]"
    requires p == h + 1 + |A| && q == p + 1 + |B| && e == q + 1 + |C|
    ensures e < |data|
    ensures data[h] == '[' && data[h + 1..p] == A && data[p] == '|' && data[p + 1..q] == B
    ensures data[q] == '|' && data[q + 1..e] == C && data[e] == ']'
  {
    PayloadShape(P, A, B, C);
    SliceOfSlice(data, h, h + |P|, 1, 1 + |A|);
    SliceOfSlice(data, h, h + |P|, 2 + |A|, 2 + |A| + |B|);
    SliceOfSlice(data, h, h + |P|, 3 + |A| + |B|, 3 + |A| + |B| + |C|);
  }

  lemma SliceOfSlice(data: seq<char>, lo: nat, hi: nat, i: nat, j: nat)
    requires lo <= hi <= |data| && i <= j <= hi - lo
    ensures data[lo..hi][i..j] == data[lo + i..lo + j]
  {
    var u, v := data[lo..hi][i..j], data[lo + i..lo + j];
    assert |u| == |v|;
    forall k | 0 <= k < |u| ensures u[k] == v[k] {
      assert u[k] == data[lo..hi][i + k];
    }
  }

  /** `num_pixels`, the strip length every level is built with. */
  const NUM_PIXELS: u32 := 146

  /** `beetle_lights::LevelResultKinds` as `loop` reads it: `PENDING`, `SUCCESS`, and
      anything else. */
  datatype LevelResult = Pending | Success | Failure

  /** The level `main.cpp` drives: it calls `beetle_lights::Level` with a layout address
      and size, `update(last_input, now)` and `result()`, which the xiao `Level` does not
      offer, so the level is a parameter of the runner. */
  datatype LevelOps<!L> = LevelOps(
    empty: L,
    make: (seq<char>, u8, u32) -> L,
    update: (L, Option<XiaoTypes.ControllerInput>, u32) -> L,
    result: L -> LevelResult)

  /** The controller sample a parsed payload stands for. */
  function InputOf(t: (u32, u32, u8)): XiaoTypes.ControllerInput
  {
    XiaoTypes.ControllerInput(t.0, t.1, t.2)
  }

  /** `while (*head != '\n') head++;` from `i`. */
  method FindLineEnd(data: seq<char>, i: nat) returns (j: nat)
    requires HasNewline(data, i)
    ensures j == LineEnd(data, i)
  {
    j := i;
    while At(data, j) != '\n'
      invariant i <= j <= LineEnd(data, i)
      decreases LineEnd(data, i) - j
    {
      j := j + 1;
    }
    LineEndMin(data, i, j);
  }

  /** `while (*level != '\n') { level_size ++; level++; }` from `start`, with the
      `uint8_t` count. */
  method MeasureLine(data: seq<char>, start: nat) returns (size: u8, end: nat)
    requires HasNewline(data, start)
    ensures end == LineEnd(data, start) && size == LineSize(data, start)
  {
    size, end := 0, start;
    while At(data, end) != '\n'
      invariant start <= end <= LineEnd(data, start)
      invariant size == (end - start) % 0x100
      decreases LineEnd(data, start) - end
    {
      size := (size + 1) % 0x100;
      end := end + 1;
    }
    LineEndMin(data, start, end);
  }

  /** The newlines the counting loop of `setup` has read once it stands at `level`,
      having started at `from`: the character at `level_data_end` is not one. */
  function CountedFrom(data: seq<char>, from: nat, level: nat): nat
    requires from < |data| && from <= level <= |data|
  {
    CountNewlines(data[from + 1..if level < |data| then level + 1 else |data|])
  }

  /** One more character read by the counting loop. */
  lemma CountedStep(data: seq<char>, from: nat, level: nat)
    requires from <= level < |data|
    ensures CountedFrom(data, from, level + 1) ==
            CountedFrom(data, from, level) + if At(data, level + 1) == '\n' then 1 else 0
  {
    if level + 1 < |data| {
      var after := data[from + 1..level + 2];
      assert after[..|after| - 1] == data[from + 1..level + 1];
    }
  }

  /** A `uint16_t` increment of a wrapped count is the wrapped successor. */
  lemma WrapIncrement(n: nat)
    ensures (n % 0x1_0000 + 1) % 0x1_0000 == (n + 1) % 0x1_0000
  {
  }

  /** The counting loop of `setup`, from the `'\n'` that ends the first level up to
      `level_data_end`: `total_level_count` starts at 1 and counts every `'\n'` read. */
  method CountLevels(data: seq<char>, from: nat) returns (total: u16)
    requires from < |data|
    ensures total == (1 + CountNewlines(data[from + 1..])) % 0x1_0000
  {
    total := 1;
    var level := from;
    ghost var counted := 0;
    while level != |data|
      invariant from <= level <= |data|
      invariant counted == CountedFrom(data, from, level)
      invariant total == (1 + counted) % 0x1_0000
    {
      CountedStep(data, from, level);
      level := level + 1;
      if At(data, level) == '\n' {
        WrapIncrement(1 + counted);
        total := (total + 1) % 0x1_0000;
        counted := counted + 1;
      }
    }
    assert data[from + 1..level] == data[from + 1..];
  }

  /** The walk of `loop` to level `index`: `index + 1` times, scan to the next `'\n'`,
      count it in a `uint8_t`, and step past it unless at `level_data_end`. */
  method SkipLines(data: seq<char>, index: u16) returns (head: nat)
    requires index < 255 && RotationReadable(data, index)
    ensures head == Skip(data, 0, index + 1)
  {
    var levelIndex: u8 := 0;
    head := 0;
    while levelIndex as int < index + 1
      invariant levelIndex as int <= index + 1
      invariant HasLines(data, 0, levelIndex) && head == Skip(data, 0, levelIndex)
    {
      HasLinesPrefix(data, 0, levelIndex + 1, index + 1);
      head := FindLineEnd(data, head);
      levelIndex := levelIndex + 1;
      if head != |data| {
        head := head + 1;
      }
    }
  }

  /** What `setup` reads from the levels file: skip the header line, build the first
      level from the next line, and count the levels from the end of that line. */
  method LoadFirst<L>(data: seq<char>, ops: LevelOps<L>) returns (level: L, total: u16)
    requires SetupReadable(data)
    ensures level == ops.make(data[FirstLevelStart(data)..], LineSize(data, FirstLevelStart(data)), NUM_PIXELS)
    ensures total == LevelCount(data)
  {
    var head := FindLineEnd(data, 0);
    head := head + 1;
    var size, end := MeasureLine(data, head);
    level := ops.make(data[head..], size, NUM_PIXELS);
    total := CountLevels(data, end);
  }

  /** The level built from the rotation to level `index`. */
  function RotatedLevel<L>(data: seq<char>, ops: LevelOps<L>, index: nat): L
    requires RotationReadable(data, index)
  {
    var start := RotationStart(data, index);
    ops.make(data[start..], LineSize(data, start), NUM_PIXELS)
  }

  /** The index `loop` moves to once a level has a result: the `uint16_t` sum
      `current_level_index + 1` on success and 0 otherwise, wrapped to 0 past the last
      level. */
  method MoveIndex(index: u16, total: u16, success: bool) returns (next: u16)
    ensures next == NextIndex(index, total, success)
  {
    next := if success then (index + 1) % 0x1_0000 else 0;
    if next >= total {
      next := 0;
    }
  }

  /** The rotation walk of `loop` to level `index`, then the level built from there. */
  method LoadRotated<L>(data: seq<char>, ops: LevelOps<L>, index: u16) returns (level: L)
    requires index < 255 && RotationReadable(data, index)
    ensures level == RotatedLevel(data, ops, index)
  {
    var head := SkipLines(data, index);
    head := head + 1;
    var size, _ := MeasureLine(data, head);
    level := ops.make(data[head..], size, NUM_PIXELS);
  }

  /** The globals of src/xiao-lights/src/main.cpp over the embedded levels file `data`. */
  class Runner<L> {
    const data: seq<char>
    const ops: LevelOps<L>
    var currentLevel: L
    var lastInput: Option<XiaoTypes.ControllerInput>
    var setupComplete: bool
    var currentLevelIndex: u16
    var totalLevelCount: u16

    /** The static initial values: a default level, no input, setup not done. */
    constructor(data: seq<char>, ops: LevelOps<L>)
      ensures this.data == data && this.ops == ops
      ensures currentLevel == ops.empty && lastInput == None && !setupComplete
      ensures currentLevelIndex == 0 && totalLevelCount == 0
    {
      this.data := data;
      this.ops := ops;
      currentLevel := ops.empty;
      lastInput := None;
      setupComplete := false;
      currentLevelIndex := 0;
      totalLevelCount := 0;
    }

    /** `receive_cb`: the 120-character frame is parsed with the received length and
        kept for the next `loop`. */
    method Receive(content: seq<char>, len: int)
      modifies this
      ensures lastInput == Some(InputOf(Parsed(content, len)))
      ensures currentLevel == old(currentLevel) && setupComplete == old(setupComplete)
      ensures currentLevelIndex == old(currentLevelIndex) && totalLevelCount == old(totalLevelCount)
    {
      var parsed := ParseMessage(content, len);
      lastInput := Some(InputOf(parsed));
    }

    /** `setup`: skip the header line, build the first level from the next line, count
        the levels, and complete only if esp-now started and there is a level. */
    method Setup(espNowOk: bool)
      requires SetupReadable(data)
      modifies this
      ensures currentLevel == ops.make(data[FirstLevelStart(data)..], LineSize(data, FirstLevelStart(data)), NUM_PIXELS)
      ensures totalLevelCount == LevelCount(data)
      ensures setupComplete == (espNowOk && LevelCount(data) > 0)
      ensures lastInput == old(lastInput) && currentLevelIndex == old(currentLevelIndex)
    {
      currentLevel, totalLevelCount := LoadFirst(data, ops);
      if !espNowOk {
        setupComplete := false;
        return;
      }
      setupComplete := totalLevelCount > 0;
    }

    /** `loop` once setup is done: one level update with the pending input, which is then
        dropped; once the level has a result, move the index and load that level by the
        rotation walk. */
    method Loop(now: u32)
      requires setupComplete ==> 0 < totalLevelCount <= 255 && Rotates(data, totalLevelCount)
      modifies this
      ensures !old(setupComplete) ==>
                currentLevel == old(currentLevel) && lastInput == old(lastInput) &&
                currentLevelIndex == old(currentLevelIndex)
      ensures setupComplete == old(setupComplete) && totalLevelCount == old(totalLevelCount)
      ensures old(setupComplete) ==>
                var updated := ops.update(old(currentLevel), old(lastInput), now);
                var result := ops.result(updated);
                && lastInput == None
                && (result == Pending ==> currentLevel == updated && currentLevelIndex == old(currentLevelIndex))
                && (result != Pending ==>
                      && currentLevelIndex == NextIndex(old(currentLevelIndex), totalLevelCount, result == Success)
                      && currentLevelIndex < totalLevelCount
                      && RotationReadable(data, currentLevelIndex)
                      && currentLevel == RotatedLevel(data, ops, currentLevelIndex))
    {
      if !setupComplete {
        return;
      }
      currentLevel := ops.update(currentLevel, lastInput, now);
      lastInput := None;
      var result := ops.result(currentLevel);
      if result != Pending {
        var index := MoveIndex(currentLevelIndex, totalLevelCount, result == Success);
        assert RotationReadable(data, index);
        currentLevelIndex := index;
        currentLevel := LoadRotated(data, ops, index);
      }
    }
  }
}
