/** Cleaning of statement amounts such as `(1,234.50)` into `-1234.50`.

    `clean_column` runs three successive replace passes over each cell:
    every `,` is deleted, every `(` becomes `-`, every `)` is deleted.
    `CleanAmount` is that three-pass pipeline; `CleanPerChar` is an
    independent one-character-at-a-time description of the same map, and
    the lemmas relate the two. */
module Amounts {

  /** Number of occurrences of `c` in `s`. */
  function Count(s: string, c: char): nat
  {
    if |s| == 0 then 0 else (if s[0] == c then 1 else 0) + Count(s[1..], c)
  }

  /** One `replace(c, "")` pass: every `c` is deleted, the rest keeps its order. */
  function Drop(s: string, c: char): (r: string)
    ensures c !in r
    ensures forall x :: x in r ==> x in s
    ensures |r| == |s| - Count(s, c)
  {
    if |s| == 0 then [] else (if s[0] == c then [] else [s[0]]) + Drop(s[1..], c)
  }

  /** One `replace(from, to)` pass with single-character pattern and replacement. */
  function Swap(s: string, from: char, to: char): (r: string)
    ensures |r| == |s|
    ensures forall i :: 0 <= i < |s| ==> r[i] == (if s[i] == from then to else s[i])
  {
    if |s| == 0 then [] else [if s[0] == from then to else s[0]] + Swap(s[1..], from, to)
  }

  /** No character that `clean_column` rewrites is left. */
  predicate Cleaned(s: string)
  {
    ',' !in s && '(' !in s && ')' !in s
  }

  /** `clean_column` applied to one cell: the three passes in source order. */
  function CleanAmount(s: string): (r: string)
    ensures ',' !in r && '(' !in r && ')' !in r
    ensures |r| == |s| - Count(s, ',') - Count(s, ')')
  {
    var noCommas := Drop(s, ',');
    var signed := Swap(noCommas, '(', '-');
    CountDropOther(s, ',', ')');
    CountSwapOther(noCommas, '(', '-', ')');
    SwapRemovesSource(noCommas, '(', '-');
    Drop(signed, ')')
  }

  /** What cleaning does to one character of the input. */
  function CleanChar(c: char): string
  {
    if c == ',' || c == ')' then [] else if c == '(' then "-" else [c]
  }

  /** Independent description of cleaning: each character is rewritten on
      its own and the pieces are concatenated in input order. */
  function CleanPerChar(s: string): string
  {
    if |s| == 0 then [] else CleanChar(s[0]) + CleanPerChar(s[1..])
  }

  lemma {:induction false} CountDropOther(s: string, d: char, c: char)
    requires c != d
    ensures Count(Drop(s, d), c) == Count(s, c)
  {
    if |s| > 0 {
      CountDropOther(s[1..], d, c);
      CountAppend(if s[0] == d then [] else [s[0]], Drop(s[1..], d), c);
    }
  }

  lemma {:induction false} CountSwapOther(s: string, from: char, to: char, c: char)
    requires c != from && c != to
    ensures Count(Swap(s, from, to), c) == Count(s, c)
  {
    if |s| > 0 {
      CountSwapOther(s[1..], from, to, c);
      CountAppend([if s[0] == from then to else s[0]], Swap(s[1..], from, to), c);
    }
  }

  lemma {:induction false} SwapRemovesSource(s: string, from: char, to: char)
    requires from != to
    ensures from !in Swap(s, from, to)
  {
    var r := Swap(s, from, to);
    assert forall i :: 0 <= i < |r| ==> r[i] != from;
  }

  lemma {:induction false} CountAppend(a: string, b: string, c: char)
    ensures Count(a + b, c) == Count(a, c) + Count(b, c)
  {
    if |a| > 0 {
      assert (a + b)[1..] == a[1..] + b;
      CountAppend(a[1..], b, c);
    } else {
      assert a + b == b;
    }
  }

  lemma {:induction false} DropAppend(a: string, b: string, c: char)
    ensures Drop(a + b, c) == Drop(a, c) + Drop(b, c)
  {
    if |a| > 0 {
      assert (a + b)[1..] == a[1..] + b;
      DropAppend(a[1..], b, c);
    } else {
      assert a + b == b;
    }
  }

  lemma {:induction false} SwapAppend(a: string, b: string, from: char, to: char)
    ensures Swap(a + b, from, to) == Swap(a, from, to) + Swap(b, from, to)
  {
    var l, r := Swap(a + b, from, to), Swap(a, from, to) + Swap(b, from, to);
    assert |l| == |r|;
    forall i | 0 <= i < |l| ensures l[i] == r[i] {
      if i < |a| {
        assert (a + b)[i] == a[i];
      } else {
        assert (a + b)[i] == b[i - |a|];
      }
    }
  }

  lemma {:induction false} DropAbsent(s: string, c: char)
    requires c !in s
    ensures Drop(s, c) == s
  {
    if |s| > 0 {
      assert s[0] in s;
      DropAbsent(s[1..], c);
      assert s == [s[0]] + s[1..];
    }
  }

  lemma {:induction false} SwapAbsent(s: string, from: char, to: char)
    requires from !in s
    ensures Swap(s, from, to) == s
  {
    var r := Swap(s, from, to);
    forall i | 0 <= i < |s| ensures r[i] == s[i] {
      assert s[i] in s;
    }
  }

  /** The three replace passes compose to a per-character rewrite: each `(`
      becomes `-`, each `,` and `)` disappears, every other character is
      kept, and the order of what remains is the input order. */
  lemma {:induction false} CleanAmountIsPerChar(s: string)
    ensures CleanAmount(s) == CleanPerChar(s)
  {
    if |s| > 0 {
      var h, t := [s[0]], s[1..];
      assert s == h + t;
      CleanAmountIsPerChar(t);
      DropAppend(h, t, ',');
      SwapAppend(Drop(h, ','), Drop(t, ','), '(', '-');
      DropAppend(Swap(Drop(h, ','), '(', '-'), Swap(Drop(t, ','), '(', '-'), ')');
      assert CleanAmount(h) == CleanChar(s[0]);
    }
  }

  /** Every `(` of the input turns into a `-` of the output. */
  lemma {:induction false} CleanAmountMinusCount(s: string)
    ensures Count(CleanAmount(s), '-') == Count(s, '-') + Count(s, '(')
  {
    CleanAmountIsPerChar(s);
    CleanPerCharMinusCount(s);
  }

  lemma {:induction false} CleanPerCharMinusCount(s: string)
    ensures Count(CleanPerChar(s), '-') == Count(s, '-') + Count(s, '(')
  {
    if |s| > 0 {
      CleanPerCharMinusCount(s[1..]);
      CountAppend(CleanChar(s[0]), CleanPerChar(s[1..]), '-');
    }
  }

  /** Cleaning an already cleaned amount changes nothing. */
  lemma {:induction false} CleanAmountIdempotent(s: string)
    ensures CleanAmount(CleanAmount(s)) == CleanAmount(s)
  {
    var r := CleanAmount(s);
    DropAbsent(r, ',');
    SwapAbsent(r, '(', '-');
    DropAbsent(r, ')');
  }

  /** An amount without parentheses only loses its commas. */
  lemma {:induction false} PlainAmount(d: string)
    requires '(' !in d && ')' !in d
    ensures CleanAmount(d) == Drop(d, ',')
  {
    CleanAmountIsPerChar(d);
    PlainPerChar(d);
  }

  lemma {:induction false} PlainPerChar(d: string)
    requires '(' !in d && ')' !in d
    ensures CleanPerChar(d) == Drop(d, ',')
  {
    if |d| > 0 {
      assert d[0] in d;
      assert forall x :: x in d[1..] ==> x in d;
      PlainPerChar(d[1..]);
    }
  }

  /** The bracketed-negative statement format becomes a signed decimal:
      `(digits)` cleans to `-digits` with the commas removed. */
  lemma {:induction false} BracketedNegative(d: string)
    requires '(' !in d && ')' !in d
    ensures CleanAmount("(" + d + ")") == "-" + Drop(d, ',')
  {
    CleanAmountIsPerChar("(" + d + ")");
    CleanPerCharAppend("(" + d, ")");
    CleanPerCharAppend("(", d);
    PerCharCons('(', []);
    PerCharCons(')', []);
    PlainPerChar(d);
  }

  lemma {:induction false} PerCharCons(c: char, t: string)
    ensures CleanPerChar([c] + t) == CleanChar(c) + CleanPerChar(t)
  {
    assert ([c] + t)[1..] == t;
  }

  /** The per-character rewrite distributes over concatenation. */
  lemma {:induction false} CleanPerCharAppend(a: string, b: string)
    ensures CleanPerChar(a + b) == CleanPerChar(a) + CleanPerChar(b)
  {
    if |a| > 0 {
      assert (a + b)[1..] == a[1..] + b;
      CleanPerCharAppend(a[1..], b);
    } else {
      assert a + b == b;
    }
  }
}
