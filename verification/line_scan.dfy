/** The single pass both statement scanners make over the lines.

    A scanner keeps header registers of some type `R`. Each line first
    updates the registers (the header tests); then, if the line matches the
    data pattern, one row is emitted, built from the updated registers and
    what the pattern captured. */
module LineScan {
  import opened Common
  import opened Headers

  /** The three ingredients of a scanner: the per-line register update, the
      data pattern as an oracle, and how a match becomes a row. */
  datatype Scanner<!R, !M, Row> = Scanner(
    update: (R, string) -> R,
    data: string -> Option<M>,
    stamp: (R, M) -> Row)

  /** What one line contributes, given the registers after that line's header tests. */
  function Emit<R, M, Row>(regs: R, line: string, s: Scanner<R, M, Row>): (r: seq<Row>)
    ensures |r| == if s.data(line).Some? then 1 else 0
  {
    match s.data(line)
    case None => []
    case Some(m) => [s.stamp(regs, m)]
  }

  /** The scanning loop from given registers: the left fold over the lines. */
  function ScanFrom<R, M, Row>(lines: seq<string>, regs: R, s: Scanner<R, M, Row>): seq<Row>
    decreases |lines|
  {
    if |lines| == 0 then []
    else
      var regs' := s.update(regs, lines[0]);
      Emit(regs', lines[0], s) + ScanFrom(lines[1..], regs', s)
  }

  /** The registers after reading `lines` from `start`, built from the back. */
  function After<R, M, Row>(lines: seq<string>, start: R, s: Scanner<R, M, Row>): R
    decreases |lines|
  {
    if |lines| == 0 then start
    else s.update(After(lines[..|lines| - 1], start, s), lines[|lines| - 1])
  }

  /** Reference description built line by line from the back: the rows of a
      prefix, then what its last line emits stamped with the registers as
      they stand after that line. */
  function Expected<R, M, Row>(lines: seq<string>, start: R, s: Scanner<R, M, Row>): seq<Row>
    decreases |lines|
  {
    if |lines| == 0 then []
    else Expected(lines[..|lines| - 1], start, s) + Emit(After(lines, start, s), lines[|lines| - 1], s)
  }

  lemma {:induction false} ScanSplit<R, M, Row>(lines: seq<string>, k: nat, start: R, s: Scanner<R, M, Row>)
    requires k <= |lines|
    ensures ScanFrom(lines, start, s) == Expected(lines[..k], start, s) + ScanFrom(lines[k..], After(lines[..k], start, s), s)
    decreases k
  {
    if k == 0 {
      assert lines[0..] == lines;
    } else {
      var j := k - 1;
      ScanSplit(lines, j, start, s);
      assert lines[j..][0] == lines[j];
      assert lines[j..][1..] == lines[k..];
      assert lines[..k][..j] == lines[..j];
      assert lines[..k][k - 1] == lines[j];
    }
  }

  /** The fold computes the reference description. */
  lemma {:induction false} ScanIsExpected<R, M, Row>(lines: seq<string>, start: R, s: Scanner<R, M, Row>)
    ensures ScanFrom(lines, start, s) == Expected(lines, start, s)
  {
    ScanSplit(lines, |lines|, start, s);
    assert lines[..|lines|] == lines;
  }

  lemma {:induction false} ExpectedLength<R, M, Row>(lines: seq<string>, start: R, s: Scanner<R, M, Row>)
    ensures |Expected(lines, start, s)| == CountHits(lines, s.data)
    decreases |lines|
  {
    if |lines| > 0 {
      ExpectedLength(lines[..|lines| - 1], start, s);
    }
  }

  lemma {:induction false} ExpectedPrefix<R, M, Row>(lines: seq<string>, k: nat, start: R, s: Scanner<R, M, Row>)
    requires k <= |lines|
    ensures Expected(lines[..k], start, s) <= Expected(lines, start, s)
    decreases |lines| - k
  {
    if k < |lines| {
      var init := lines[..|lines| - 1];
      assert init[..k] == lines[..k];
      ExpectedPrefix(init, k, start, s);
    } else {
      assert lines[..k] == lines;
    }
  }

  /** Exactly one row per line the data pattern matches, in line order; the
      row of line `i` is its capture stamped with the registers after the
      first `i + 1` lines. */
  lemma {:induction false} ScanRows<R, M, Row>(lines: seq<string>, start: R, s: Scanner<R, M, Row>)
    ensures |ScanFrom(lines, start, s)| == CountHits(lines, s.data)
    ensures forall i :: 0 <= i < |lines| && s.data(lines[i]).Some? ==>
              CountHits(lines[..i], s.data) < |ScanFrom(lines, start, s)|
              && ScanFrom(lines, start, s)[CountHits(lines[..i], s.data)]
                 == s.stamp(After(lines[..i + 1], start, s), s.data(lines[i]).value)
  {
    var rows := ScanFrom(lines, start, s);
    ScanIsExpected(lines, start, s);
    ExpectedLength(lines, start, s);
    forall i | 0 <= i < |lines| && s.data(lines[i]).Some?
      ensures CountHits(lines[..i], s.data) < |rows|
      ensures rows[CountHits(lines[..i], s.data)] == s.stamp(After(lines[..i + 1], start, s), s.data(lines[i]).value)
    {
      ExpectedPrefix(lines, i + 1, start, s);
      ExpectedLength(lines[..i], start, s);
      assert lines[..i + 1][..i] == lines[..i];
      assert lines[..i + 1][i] == lines[i];
    }
  }
}
