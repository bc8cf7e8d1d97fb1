/** Header registers carried forward from line to line.

    Both statement scanners keep, for each kind of header (fund name, folio,
    ISIN), the value captured by the most recent line that matched that
    header's pattern; a line that does not match leaves the register alone.
    The patterns themselves are not modelled: each is an oracle
    `string -> Option<T>` answering whether a line matches and what the
    pattern captures. */
module Headers {
  import opened Common

  /** One line's effect on a register: a match overwrites it, no match keeps it. */
  function Carry(current: Option<string>, hit: Option<string>): Option<string>
  {
    if hit.Some? then hit else current
  }

  /** The value captured by the last line of `lines` that `pattern` matches,
      or `None` when no line matches. */
  function LastMatch(lines: seq<string>, pattern: string -> Option<string>): (r: Option<string>)
    ensures r.None? <==> forall i :: 0 <= i < |lines| ==> pattern(lines[i]).None?
    ensures r.Some? ==> exists i :: 0 <= i < |lines| && pattern(lines[i]) == r
                                    && forall j :: i < j < |lines| ==> pattern(lines[j]).None?
    decreases |lines|
  {
    if |lines| == 0 then None
    else
      var init, last := lines[..|lines| - 1], |lines| - 1;
      var prev := LastMatch(init, pattern);
      assert forall i :: 0 <= i < |init| ==> init[i] == lines[i];
      if pattern(lines[last]).Some? then
        pattern(lines[last])
      else
        assert (forall i :: 0 <= i < |lines| ==> pattern(lines[i]).None?)
               <==> (forall i :: 0 <= i < |init| ==> pattern(init[i]).None?);
        assert prev.Some? ==> exists i :: 0 <= i < last && pattern(lines[i]) == prev
                                          && forall j :: i < j < |lines| ==> pattern(lines[j]).None?;
        prev
  }

  /** Number of lines that `pattern` matches. */
  function CountHits<T>(lines: seq<string>, pattern: string -> Option<T>): nat
    decreases |lines|
  {
    if |lines| == 0 then 0
    else CountHits(lines[..|lines| - 1], pattern) + (if pattern(lines[|lines| - 1]).Some? then 1 else 0)
  }

  /** The register after the first `i + 1` lines is the one after `i` lines
      updated by line `i`. */
  lemma {:induction false} LastMatchStep(lines: seq<string>, i: nat, pattern: string -> Option<string>)
    requires i < |lines|
    ensures LastMatch(lines[..i + 1], pattern) == Carry(LastMatch(lines[..i], pattern), pattern(lines[i]))
  {
    assert lines[..i + 1][..i] == lines[..i];
  }
}
