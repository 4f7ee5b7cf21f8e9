/** The levels file as the xiao-lights firmware walks it (src/xiao-lights/src/main.cpp,
    `setup` and `loop`): a header line, then one layout per line, every line ended by
    `'\n'`. Positions are indices into the embedded text; the walk reads a line by
    scanning for its `'\n'`. */
module XiaoLevelText {
  import opened Shared

  /** A `'\n'` at or after `i`: the scan `while (*head != '\n') head++` from `i` stays
      inside the text. */
  predicate HasNewline(data: seq<char>, i: nat)
  {
    exists j :: i <= j < |data| && data[j] == '\n'
  }

  /** Where the scan from `i` stops: the first `'\n'` at or after `i`. */
  function LineEnd(data: seq<char>, i: nat): (j: nat)
    requires HasNewline(data, i)
    ensures i <= j < |data| && data[j] == '\n'
    decreases |data| - i
  {
    if data[i] == '\n' then i
    else
      assert HasNewline(data, i + 1) by {
        var j :| i <= j < |data| && data[j] == '\n';
        assert i + 1 <= j;
      }
      LineEnd(data, i + 1)
  }

  /** The scan from `i` passes no `'\n'` before it stops. */
  lemma {:induction false} LineEndFirst(data: seq<char>, i: nat, k: nat)
    requires HasNewline(data, i) && i <= k < LineEnd(data, i)
    ensures data[k] != '\n'
    decreases k - i
  {
    if i < k {
      LineEndFirst(data, i + 1, k);
    }
  }

  /** The scan from `i` stops at or before any `'\n'` at or after `i`. */
  lemma {:induction false} LineEndMin(data: seq<char>, i: nat, j: nat)
    requires i <= j < |data| && data[j] == '\n'
    ensures HasNewline(data, i) && LineEnd(data, i) <= j
    decreases j - i
  {
    if data[i] != '\n' {
      LineEndMin(data, i + 1, j);
    }
  }

  /** The first `'\n'` at or after `i` is the one at `j`. */
  lemma {:induction false} LineEndAt(data: seq<char>, i: nat, j: nat)
    requires i <= j < |data| && data[j] == '\n'
    requires forall k :: i <= k < j ==> data[k] != '\n'
    ensures HasNewline(data, i) && LineEnd(data, i) == j
    decreases j - i
  {
    if i < j {
      LineEndAt(data, i + 1, j);
    }
  }

  /** `n` lines can be skipped from `i`, each by scanning to its `'\n'` and stepping
      past it. */
  predicate HasLines(data: seq<char>, i: nat, n: nat)
    decreases n, 0
  {
    n == 0 || (HasLines(data, i, n - 1) && HasNewline(data, Skip(data, i, n - 1)))
  }

  /** The position after skipping `n` lines from `i`. */
  function Skip(data: seq<char>, i: nat, n: nat): (j: nat)
    requires HasLines(data, i, n)
    ensures i <= j && (n > 0 ==> 1 <= j <= |data| && data[j - 1] == '\n')
    decreases n, 1
  {
    if n == 0 then i else LineEnd(data, Skip(data, i, n - 1)) + 1
  }

  lemma {:induction false} HasLinesPrefix(data: seq<char>, i: nat, m: nat, n: nat)
    requires m <= n && HasLines(data, i, n)
    ensures HasLines(data, i, m)
    decreases n - m
  {
    if m < n {
      HasLinesPrefix(data, i, m + 1, n);
    }
  }

  /** The number of `'\n'` characters in `s`. */
  function CountNewlines(s: seq<char>): (n: nat)
    ensures n <= |s|
  {
    if s == [] then 0 else CountNewlines(s[..|s| - 1]) + (if s[|s| - 1] == '\n' then 1 else 0)
  }

  lemma {:induction false} CountNewlinesAppend(a: seq<char>, b: seq<char>)
    ensures CountNewlines(a + b) == CountNewlines(a) + CountNewlines(b)
    decreases |b|
  {
    if b == [] {
      assert a + b == a;
    } else {
      var b' := b[..|b| - 1];
      assert (a + b)[..|a + b| - 1] == a + b';
      assert (a + b)[|a + b| - 1] == b[|b| - 1];
      CountNewlinesAppend(a, b');
    }
  }

  /** What `setup` needs: a header line and a first level line, both ended by `'\n'`. */
  predicate SetupReadable(data: seq<char>)
  {
    HasNewline(data, 0) && HasNewline(data, LineEnd(data, 0) + 1)
  }

  /** `setup` starts the first level right after the header's `'\n'`. */
  function FirstLevelStart(data: seq<char>): nat
    requires HasNewline(data, 0)
  {
    LineEnd(data, 0) + 1
  }

  /** The `uint8_t level_size` counted from `start` up to the next `'\n'`: it wraps past 255. */
  function LineSize(data: seq<char>, start: nat): u8
    requires HasNewline(data, start)
  {
    (LineEnd(data, start) - start) % 0x100
  }

  /** `total_level_count` after `setup`: 1 for the first level, plus one per `'\n'` after
      the first level's own, as a `uint16_t`. */
  function LevelCount(data: seq<char>): u16
    requires SetupReadable(data)
  {
    (1 + CountNewlines(data[LineEnd(data, FirstLevelStart(data)) + 1..])) % 0x1_0000
  }

  /** The index `loop` moves to once a level has ended: the next one on success, the first
      one otherwise, and the first one again past the last. The sum `index + 1` is stored
      back into a `uint16_t`. */
  function NextIndex(index: u16, total: u16, success: bool): (r: u16)
    // the index always names an existing level (or is 0 when there are none)
    ensures r < total || (total == 0 && r == 0)
    ensures !success ==> r == 0
    ensures success && index + 1 < total ==> r == index + 1
    ensures success && index + 1 >= total ==> r == 0
  {
    var next := if success then (index + 1) % 0x1_0000 else 0;
    if next >= total then 0 else next
  }

  /** The index after `k` successes in a row from `index`. */
  function Successes(index: u16, total: u16, k: nat): u16
  {
    if k == 0 then index else NextIndex(Successes(index, total, k - 1), total, true)
  }

  /** Winning every level plays them in file order, starting over after the last: after
      `q` full rounds and `r` more wins the index is `r`. */
  lemma SuccessesCycle(total: u16, q: nat, r: nat)
    requires r < total
    ensures Successes(0, total, q * total + r) == r
  {
    SuccessesRounds(total, q);
    SuccessesRound(total, q * total, r);
  }

  /** From index 0, `r` wins in a row (fewer than `total`) reach index `r`. */
  lemma {:induction false} SuccessesRound(total: u16, base: nat, r: nat)
    requires r < total && Successes(0, total, base) == 0
    ensures Successes(0, total, base + r) == r
    decreases r
  {
    if r > 0 {
      SuccessesRound(total, base, r - 1);
    }
  }

  /** Each full round of `total` wins comes back to index 0. */
  lemma {:induction false} SuccessesRounds(total: u16, q: nat)
    requires 0 < total
    ensures Successes(0, total, q * total) == 0
    decreases q
  {
    if q > 0 {
      var base := (q - 1) * total;
      SuccessesRounds(total, q - 1);
      SuccessesRound(total, base, total - 1);
      assert q * total == base + (total - 1) + 1;
      assert Successes(0, total, q * total) == NextIndex(Successes(0, total, base + (total - 1)), total, true);
    }
  }

  /** What the rotation in `loop` needs for level `k`: `k + 1` lines to skip, and a
      `'\n'` after the position it then starts from. */
  predicate RotationReadable(data: seq<char>, k: nat)
  {
    HasLines(data, 0, k + 1) && HasNewline(data, Skip(data, 0, k + 1) + 1)
  }

  /** Every index below `total` can be rotated to. */
  predicate Rotates(data: seq<char>, total: nat)
  {
    forall k :: 0 <= k < total ==> RotationReadable(data, k)
  }

  /** Where the rotation starts level `k`: it skips `k + 1` lines and then steps once
      more (`const char *level = (++head)`), one character past the line's start. */
  function RotationStart(data: seq<char>, k: nat): nat
    requires RotationReadable(data, k)
  {
    Skip(data, 0, k + 1) + 1
  }

  /** The rotation back to level 0 does not read what `setup` read: it starts one
      character later, on the same line, and so counts one character fewer. */
  lemma RotationSkipsFirstCharacter(data: seq<char>)
    requires SetupReadable(data) && data[FirstLevelStart(data)] != '\n'
    ensures RotationReadable(data, 0)
    ensures RotationStart(data, 0) == FirstLevelStart(data) + 1
    ensures LineEnd(data, RotationStart(data, 0)) == LineEnd(data, FirstLevelStart(data))
    ensures LineSize(data, RotationStart(data, 0)) == (LineSize(data, FirstLevelStart(data)) + 0xFF) % 0x100
  {
    var s := FirstLevelStart(data);
    var e := LineEnd(data, s);
    assert Skip(data, 0, 1) == s;
    assert s + 1 <= e && data[e] == '\n';
  }

  /** Lines, each followed by its `'\n'`. */
  function Join(lines: seq<seq<char>>): seq<char>
  {
    if lines == [] then [] else Join(lines[..|lines| - 1]) + lines[|lines| - 1] + "\n"
  }

  predicate NoNewline(s: seq<char>)
  {
    forall i :: 0 <= i < |s| ==> s[i] != '\n'
  }

  /** A levels file: a header line, then the layouts, one per line. */
  function File(header: seq<char>, lines: seq<seq<char>>): seq<char>
  {
    header + "\n" + Join(lines)
  }

  predicate WellFormed(header: seq<char>, lines: seq<seq<char>>)
  {
    NoNewline(header) && forall k :: 0 <= k < |lines| ==> NoNewline(lines[k])
  }

  lemma {:induction false} CountJoin(lines: seq<seq<char>>)
    requires forall k :: 0 <= k < |lines| ==> NoNewline(lines[k])
    ensures CountNewlines(Join(lines)) == |lines|
    decreases |lines|
  {
    if lines != [] {
      var init, last := lines[..|lines| - 1], lines[|lines| - 1];
      CountJoin(init);
      CountNewlinesAppend(Join(init) + last, "\n");
      CountNewlinesAppend(Join(init), last);
      NoNewlineCount(last);
    }
  }

  lemma {:induction false} NoNewlineCount(s: seq<char>)
    requires NoNewline(s)
    ensures CountNewlines(s) == 0
    decreases |s|
  {
    if s != [] {
      NoNewlineCount(s[..|s| - 1]);
    }
  }

  /** Line `k` of the layouts, found at `q`: its characters, its `'\n'`, and where a scan
      from its `j`-th character stops. */
  lemma LineAt(data: seq<char>, p: nat, lines: seq<seq<char>>, k: nat, q: nat, j: nat)
    requires k < |lines| && NoNewline(lines[k]) && j <= |lines[k]|
    requires p + |Join(lines)| <= |data| && data[p..p + |Join(lines)|] == Join(lines)
    requires q == p + |Join(lines[..k])|
    ensures q + |lines[k]| < |data| && data[q..q + |lines[k]|] == lines[k] && data[q + |lines[k]|] == '\n'
    ensures HasNewline(data, q + j) && LineEnd(data, q + j) == q + |lines[k]|
  {
    var J, line := Join(lines), lines[k];
    JoinSplit(lines, k + 1);
    assert lines[..k + 1][..k] == lines[..k];
    assert Join(lines[..k + 1]) == Join(lines[..k]) + line + "\n";
    var e := q + |line|;
    forall i | q <= i < e
      ensures data[i] == line[i - q]
    {
      assert data[i] == J[i - p];
    }
    assert data[e] == J[e - p];
    LineEndAt(data, q + j, e);
  }

  /** Skipping `k` lines from the start of the layouts lands on line `k`. */
  lemma {:induction false} SkipJoin(data: seq<char>, p: nat, lines: seq<seq<char>>, k: nat)
    requires forall i :: 0 <= i < |lines| ==> NoNewline(lines[i])
    requires k <= |lines| && p + |Join(lines)| <= |data| && data[p..p + |Join(lines)|] == Join(lines)
    ensures HasLines(data, p, k) && Skip(data, p, k) == p + |Join(lines[..k])|
    decreases k
  {
    if k > 0 {
      SkipJoin(data, p, lines, k - 1);
      LineAt(data, p, lines, k - 1, p + |Join(lines[..k - 1])|, 0);
      assert lines[..k][..k - 1] == lines[..k - 1];
    }
  }

  /** Joining splits at any index. */
  lemma {:induction false} JoinSplit(lines: seq<seq<char>>, k: nat)
    requires k <= |lines|
    ensures Join(lines) == Join(lines[..k]) + Join(lines[k..])
    decreases |lines|
  {
    if k < |lines| {
      var init := lines[..|lines| - 1];
      JoinSplit(init, k);
      assert init[..k] == lines[..k];
      assert init[k..] == lines[k..][..|lines[k..]| - 1];
    } else {
      assert lines[..k] == lines;
      assert lines[k..] == [];
    }
  }

  /** The header line is skipped by the first scan. */
  lemma HeaderSkipped(header: seq<char>, lines: seq<seq<char>>)
    requires NoNewline(header)
    ensures var data := File(header, lines);
            && HasNewline(data, 0) && LineEnd(data, 0) == |header|
            && data[|header| + 1..|header| + 1 + |Join(lines)|] == Join(lines)
  {
    var data := File(header, lines);
    forall i | 0 <= i < |header|
      ensures data[i] != '\n'
    {
      assert data[i] == header[i];
    }
    LineEndAt(data, 0, |header|);
  }

  /** `setup` on a well-formed file reads the first layout in full and counts every layout
      (modulo `uint16_t`). */
  lemma FileSetup(header: seq<char>, lines: seq<seq<char>>)
    requires WellFormed(header, lines) && |lines| >= 1
    ensures var data := File(header, lines);
            && SetupReadable(data)
            && FirstLevelStart(data) == |header| + 1
            && LineEnd(data, FirstLevelStart(data)) == |header| + 1 + |lines[0]|
            && data[FirstLevelStart(data)..LineEnd(data, FirstLevelStart(data))] == lines[0]
            && LineSize(data, FirstLevelStart(data)) == |lines[0]| % 0x100
            && LevelCount(data) == |lines| % 0x1_0000
  {
    HeaderSkipped(header, lines);
    SetupOf(File(header, lines), |header| + 1, lines);
  }

  /** `setup` on a file whose layouts start at `p`, right after the header, and run to
      its end. */
  lemma SetupOf(data: seq<char>, p: nat, lines: seq<seq<char>>)
    requires |lines| >= 1 && forall k :: 0 <= k < |lines| ==> NoNewline(lines[k])
    requires HasNewline(data, 0) && p == LineEnd(data, 0) + 1
    requires p + |Join(lines)| == |data| && data[p..p + |Join(lines)|] == Join(lines)
    ensures SetupReadable(data) && FirstLevelStart(data) == p
    ensures LineEnd(data, FirstLevelStart(data)) == p + |lines[0]|
    ensures data[FirstLevelStart(data)..LineEnd(data, FirstLevelStart(data))] == lines[0]
    ensures LineSize(data, FirstLevelStart(data)) == |lines[0]| % 0x100
    ensures LevelCount(data) == |lines| % 0x1_0000
  {
    FirstLineAt(data, p, lines);
    assert data[p..] == Join(lines);
    RestCounted(data, p, lines);
    SetupAt(data, p, lines[0], |lines|);
  }

  /** `setup` on a file whose first layout `line` starts at `p` and is followed by `n - 1`
      further lines. */
  lemma SetupAt(data: seq<char>, p: nat, line: seq<char>, n: nat)
    requires n >= 1 && HasNewline(data, 0) && p == LineEnd(data, 0) + 1
    requires p + |line| < |data| && HasNewline(data, p) && LineEnd(data, p) == p + |line|
    requires data[p..p + |line|] == line
    requires CountNewlines(data[p + |line| + 1..]) == n - 1
    ensures SetupReadable(data) && FirstLevelStart(data) == p
    ensures LineEnd(data, FirstLevelStart(data)) == p + |line|
    ensures data[FirstLevelStart(data)..LineEnd(data, FirstLevelStart(data))] == line
    ensures LineSize(data, FirstLevelStart(data)) == |line| % 0x100
    ensures LevelCount(data) == n % 0x1_0000
  {
  }

  /** The first layout, when the layouts start at `p`. */
  lemma FirstLineAt(data: seq<char>, p: nat, lines: seq<seq<char>>)
    requires |lines| >= 1 && NoNewline(lines[0])
    requires p + |Join(lines)| <= |data| && data[p..p + |Join(lines)|] == Join(lines)
    ensures p + |lines[0]| < |data| && data[p..p + |lines[0]|] == lines[0]
    ensures HasNewline(data, p) && LineEnd(data, p) == p + |lines[0]|
  {
    assert lines[..0] == [];
    LineAt(data, p, lines, 0, p, 0);
  }

  /** After the first layout's `'\n'`, the rest of a file holding the layouts from `p`
      on has one `'\n'` per remaining layout. */
  lemma RestCounted(data: seq<char>, p: nat, lines: seq<seq<char>>)
    requires |lines| >= 1 && forall k :: 0 <= k < |lines| ==> NoNewline(lines[k])
    requires p + |Join(lines)| == |data| && data[p..] == Join(lines)
    ensures p + |lines[0]| < |data|
    ensures CountNewlines(data[p + |lines[0]| + 1..]) == |lines| - 1
  {
    var J := Join(lines);
    JoinSplit(lines, 1);
    assert lines[..1][..0] == [];
    assert Join(lines[..1]) == lines[0] + "\n";
    var e := p + |lines[0]|;
    assert data[e + 1..] == J[|lines[0]| + 1..];
    assert J[|lines[0]| + 1..] == Join(lines[1..]);
    CountJoin(lines[1..]);
  }

  /** The rotation to level `k` of a well-formed file reads layout line `k` without its
      first character. */
  lemma FileRotation(header: seq<char>, lines: seq<seq<char>>, k: nat)
    requires WellFormed(header, lines) && k < |lines| && |lines[k]| >= 1
    ensures var data := File(header, lines);
            && RotationReadable(data, k)
            && data[RotationStart(data, k)..LineEnd(data, RotationStart(data, k))] == lines[k][1..]
            && LineSize(data, RotationStart(data, k)) == (|lines[k]| - 1) % 0x100
  {
    HeaderSkipped(header, lines);
    RotationOf(File(header, lines), |header| + 1, lines, k);
  }

  /** The rotation to level `k` when the layouts start at `p`, right after the header. */
  lemma RotationOf(data: seq<char>, p: nat, lines: seq<seq<char>>, k: nat)
    requires forall i :: 0 <= i < |lines| ==> NoNewline(lines[i])
    requires k < |lines| && |lines[k]| >= 1
    requires HasNewline(data, 0) && p == LineEnd(data, 0) + 1
    requires p + |Join(lines)| <= |data| && data[p..p + |Join(lines)|] == Join(lines)
    ensures RotationReadable(data, k)
    ensures data[RotationStart(data, k)..LineEnd(data, RotationStart(data, k))] == lines[k][1..]
    ensures LineSize(data, RotationStart(data, k)) == (|lines[k]| - 1) % 0x100
  {
    var q := p + |Join(lines[..k])|;
    RotationAt(data, p, lines, k, q);
    RotationLine(data, k, q, lines[k]);
  }

  /** The rotation to level `k` that starts at `q + 1` reads `line` without its first
      character. */
  lemma RotationLine(data: seq<char>, k: nat, q: nat, line: seq<char>)
    requires |line| >= 1 && RotationReadable(data, k) && RotationStart(data, k) == q + 1
    requires q + |line| < |data| && LineEnd(data, q + 1) == q + |line|
    requires data[q + 1..q + |line|] == line[1..]
    ensures data[RotationStart(data, k)..LineEnd(data, RotationStart(data, k))] == line[1..]
    ensures LineSize(data, RotationStart(data, k)) == (|line| - 1) % 0x100
  {
  }

  /** The rotation to level `k` when the layouts start at `p`, right after the header, and
      line `k` starts at `q`. */
  lemma RotationAt(data: seq<char>, p: nat, lines: seq<seq<char>>, k: nat, q: nat)
    requires forall i :: 0 <= i < |lines| ==> NoNewline(lines[i])
    requires k < |lines| && |lines[k]| >= 1
    requires HasNewline(data, 0) && p == LineEnd(data, 0) + 1
    requires p + |Join(lines)| <= |data| && data[p..p + |Join(lines)|] == Join(lines)
    requires q == p + |Join(lines[..k])|
    ensures RotationReadable(data, k) && RotationStart(data, k) == q + 1
    ensures q + |lines[k]| < |data| && LineEnd(data, q + 1) == q + |lines[k]|
    ensures data[q + 1..q + |lines[k]|] == lines[k][1..]
  {
    RotationSkip(data, p, lines, k);
    LineAt(data, p, lines, k, q, 1);
    assert data[q + 1..q + |lines[k]|] == lines[k][1..];
  }

  /** The rotation to level `k` skips the header and the `k` layouts before it. */
  lemma RotationSkip(data: seq<char>, p: nat, lines: seq<seq<char>>, k: nat)
    requires forall i :: 0 <= i < |lines| ==> NoNewline(lines[i])
    requires k <= |lines| && HasNewline(data, 0) && p == LineEnd(data, 0) + 1
    requires p + |Join(lines)| <= |data| && data[p..p + |Join(lines)|] == Join(lines)
    ensures HasLines(data, 0, k + 1) && Skip(data, 0, k + 1) == p + |Join(lines[..k])|
  {
    SkipJoin(data, p, lines, k);
    SkipShift(data, p, k);
  }

  /** Skipping the header and then `k` lines is skipping `k + 1` lines from the start. */
  lemma {:induction false} SkipShift(data: seq<char>, p: nat, k: nat)
    requires HasNewline(data, 0) && p == LineEnd(data, 0) + 1 && HasLines(data, p, k)
    ensures HasLines(data, 0, k + 1) && Skip(data, 0, k + 1) == Skip(data, p, k)
    decreases k
  {
    if k > 0 {
      SkipShift(data, p, k - 1);
    }
  }
}
