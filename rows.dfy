/**
 * What every seeder shares: a batch of rows, each parsed on its own into a
 * record or dropped, the kept records collected in row order, and the
 * identifier `seed-<index>` that ties a seeded record to its row.
 */
module Rows {
  import opened Text

  /** The records of the rows that parsed, in row order: the array a
      seeding loop builds by pushing each record it keeps. */
  function Kept<T>(parsed: seq<Option<T>>): (r: seq<T>)
    ensures |r| <= |parsed|
  {
    if parsed == [] then []
    else (if parsed[0].Some? then [parsed[0].value] else []) + Kept(parsed[1..])
  }

  /** Every row handled on its own, with its position: the callback of a
      `rows.forEach((row, index) => …)` pass, applied row by row. */
  function ParseAll<R, T>(rows: seq<R>, parse: (R, nat) -> T): (r: seq<T>)
    ensures |r| == |rows| && forall i :: 0 <= i < |rows| ==> r[i] == parse(rows[i], i)
  {
    seq(|rows|, i requires 0 <= i < |rows| => parse(rows[i], i))
  }

  /** One more row handled: its record, if any, goes at the end. */
  lemma {:induction false} KeptSnoc<T>(parsed: seq<Option<T>>, i: nat)
    requires i < |parsed|
    ensures Kept(parsed[..i + 1]) == Kept(parsed[..i]) + (if parsed[i].Some? then [parsed[i].value] else [])
  {
    if i > 0 {
      assert parsed[..i + 1][1..] == parsed[1..][..i];
      assert parsed[..i][1..] == parsed[1..][..i - 1];
      KeptSnoc(parsed[1..], i - 1);
    }
  }

  /** Every kept record is the record of some row. */
  lemma {:induction false} KeptSound<T>(parsed: seq<Option<T>>)
    ensures forall x :: x in Kept(parsed) ==> exists i :: 0 <= i < |parsed| && parsed[i] == Some(x)
  {
    if parsed != [] {
      KeptSound(parsed[1..]);
      forall x | x in Kept(parsed)
        ensures exists i :: 0 <= i < |parsed| && parsed[i] == Some(x)
      {
        if !(parsed[0].Some? && x == parsed[0].value) {
          var i :| 0 <= i < |parsed[1..]| && parsed[1..][i] == Some(x);
          assert parsed[i + 1] == Some(x);
        }
      }
    }
  }

  /** The record of every row that parsed is kept. */
  lemma {:induction false} KeptComplete<T>(parsed: seq<Option<T>>)
    ensures forall i :: 0 <= i < |parsed| && parsed[i].Some? ==> parsed[i].value in Kept(parsed)
  {
    if parsed != [] {
      KeptComplete(parsed[1..]);
      forall i | 0 <= i < |parsed| && parsed[i].Some?
        ensures parsed[i].value in Kept(parsed)
      {
        if i > 0 {
          assert parsed[1..][i - 1] == parsed[i];
        }
      }
    }
  }

  /** When a row's record carries the row's position (as `key`), the kept
      records carry strictly increasing positions: output order is row
      order and no two kept records come from the same row. */
  lemma {:induction false} KeptIncreasing<T>(parsed: seq<Option<T>>, key: T -> int, base: int)
    requires forall i :: 0 <= i < |parsed| && parsed[i].Some? ==> key(parsed[i].value) == base + i
    ensures forall j :: 0 <= j < |Kept(parsed)| ==> base <= key(Kept(parsed)[j]) < base + |parsed|
    ensures forall j, k :: 0 <= j < k < |Kept(parsed)| ==> key(Kept(parsed)[j]) < key(Kept(parsed)[k])
  {
    if parsed != [] {
      var tail := parsed[1..];
      forall i | 0 <= i < |tail| && tail[i].Some?
        ensures key(tail[i].value) == (base + 1) + i
      {
        assert tail[i] == parsed[i + 1];
      }
      KeptIncreasing(tail, key, base + 1);
    }
  }

  /** `xs` is `ys` with some elements left out. */
  predicate IsSubseq<T(==)>(xs: seq<T>, ys: seq<T>)
    decreases |ys|
  {
    xs == [] || (ys != [] && ((xs[0] == ys[0] && IsSubseq(xs[1..], ys[1..])) || IsSubseq(xs, ys[1..])))
  }

  /** A subsequence never has more elements than the sequence. */
  lemma {:induction false} SubseqLength<T>(xs: seq<T>, ys: seq<T>)
    requires IsSubseq(xs, ys)
    ensures |xs| <= |ys|
    decreases |ys|
  {
    if xs != [] {
      if xs[0] == ys[0] && IsSubseq(xs[1..], ys[1..]) {
        SubseqLength(xs[1..], ys[1..]);
      } else {
        SubseqLength(xs, ys[1..]);
      }
    }
  }

  lemma SubseqCons<T>(xs: seq<T>, y: T, ys: seq<T>)
    requires IsSubseq(xs, ys)
    ensures IsSubseq(xs, [y] + ys)
  {
    assert ([y] + ys)[1..] == ys;
  }

  /** Rows kept by a stricter parser, which keeps a subset of the rows and
      builds the same record for each, form a subsequence of the rows kept
      by the looser one. */
  lemma {:induction false} KeptSubseq<T>(strict: seq<Option<T>>, loose: seq<Option<T>>)
    requires |strict| == |loose|
    requires forall i :: 0 <= i < |strict| && strict[i].Some? ==> loose[i] == strict[i]
    ensures IsSubseq(Kept(strict), Kept(loose))
  {
    if strict != [] {
      var s', l' := strict[1..], loose[1..];
      forall i | 0 <= i < |s'| && s'[i].Some?
        ensures l'[i] == s'[i]
      {
        assert s'[i] == strict[i + 1] && l'[i] == loose[i + 1];
      }
      KeptSubseq(s', l');
      if strict[0].Some? {
        assert Kept(strict) == [strict[0].value] + Kept(s');
        assert Kept(loose) == [strict[0].value] + Kept(l');
        assert Kept(strict)[1..] == Kept(s');
      } else if loose[0].Some? {
        assert Kept(strict) == Kept(s');
        assert Kept(loose) == [loose[0].value] + Kept(l');
        SubseqCons(Kept(s'), loose[0].value, Kept(l'));
      } else {
        assert Kept(strict) == Kept(s') && Kept(loose) == Kept(l');
      }
    }
  }

  // ---------------------------------------------------------------------
  // Seed identifiers
  // ---------------------------------------------------------------------

  const SeedPrefix: string := "seed-"

  /** The inverse of `SeedId`; -1 for a string that is not a seed id. */
  function SeedIndex(id: string): int {
    if |id| > |SeedPrefix| && id[..|SeedPrefix|] == SeedPrefix && AllDigits(id[|SeedPrefix|..])
    then DigitsValue(id[|SeedPrefix|..])
    else -1
  }

  /** `seed-${index}`: the index can be read back, so distinct indices give
      distinct ids. */
  function SeedId(index: nat): (id: string)
    ensures SeedIndex(id) == index
  {
    var digits := NatToString(index);
    var id := SeedPrefix + digits;
    assert id[..|SeedPrefix|] == SeedPrefix && id[|SeedPrefix|..] == digits;
    id
  }
}
