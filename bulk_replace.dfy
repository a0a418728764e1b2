/**
 * `replaceBulk(str, findArray, replaceArray)` (src/helpers.js, and the identical copy in
 * src/generateShim.js): one global regular-expression replace whose pattern is the
 * escaped find strings joined by `|`, each match replaced by `map[matched]`. A regular
 * expression of escaped literals matches, at the leftmost position where any of them
 * occurs, the FIRST alternative in `findArray` order; scanning resumes after the match,
 * so replacement text is never re-scanned.
 */
module BulkReplace {
  import opened Js

  /** Every find string is non-empty. */
  predicate NonEmptyFinds(find: seq<string>)
  {
    forall k :: 0 <= k < |find| ==> find[k] != ""
  }

  /** `replaceArray[i]`, which is `undefined` past the end of the array. */
  function ReplacementAt(repl: seq<string>, i: nat): string
  {
    if i < |repl| then repl[i] else "undefined"
  }

  /** The object `map` after the first `n` rounds of the `for` loop: key `findArray[i]`
      set to `replaceArray[i]`, later rounds overwriting earlier ones. */
  function Table(find: seq<string>, repl: seq<string>, n: nat): (t: map<string, string>)
    requires n <= |find|
    ensures forall k :: 0 <= k < n ==> find[k] in t
  {
    if n == 0 then map[]
    else Table(find, repl, n - 1)[find[n - 1] := ReplacementAt(repl, n - 1)]
  }

  /** `map` has no keys but the find strings. */
  lemma {:induction false} TableKeys(find: seq<string>, repl: seq<string>, n: nat, key: string)
    requires n <= |find|
    requires key in Table(find, repl, n)
    ensures exists k :: 0 <= k < n && find[k] == key
  {
    if key != find[n - 1] {
      TableKeys(find, repl, n - 1, key);
    }
  }

  /** The index of the first find string that `s` starts with, or `|find|` if none. */
  function FirstMatch(s: string, find: seq<string>): (k: nat)
    ensures k <= |find|
    ensures k < |find| ==> StartsWith(s, find[k])
    ensures forall j :: 0 <= j < k ==> !StartsWith(s, find[j])
  {
    if find == [] then 0
    else if StartsWith(s, find[0]) then 0
    else 1 + FirstMatch(s, find[1..])
  }

  /** The global replace: left to right, at each position the first alternative that
      matches is replaced by its table entry and scanning resumes after it. */
  function Scan(s: string, find: seq<string>, table: map<string, string>): string
    requires NonEmptyFinds(find)
    requires forall k :: 0 <= k < |find| ==> find[k] in table
    decreases |s|
  {
    if s == [] then ""
    else
      var k := FirstMatch(s, find);
      if k < |find| then table[find[k]] + Scan(s[|find[k]|..], find, table)
      else [s[0]] + Scan(s[1..], find, table)
  }

  /** One step of the scan of a non-empty string: the text `h` it produces and the number
      `n` of characters it consumes. */
  lemma ScanStep(s: string, find: seq<string>, table: map<string, string>) returns (n: nat, h: string)
    requires NonEmptyFinds(find)
    requires forall k :: 0 <= k < |find| ==> find[k] in table
    requires s != []
    ensures 1 <= n <= |s|
    ensures Scan(s, find, table) == h + Scan(s[n..], find, table)
    ensures FirstMatch(s, find) < |find| ==> n == |find[FirstMatch(s, find)]| && h == table[find[FirstMatch(s, find)]]
    ensures FirstMatch(s, find) == |find| ==> n == 1 && h == [s[0]]
  {
    var k := FirstMatch(s, find);
    if k < |find| {
      n, h := |find[k]|, table[find[k]];
    } else {
      n, h := 1, [s[0]];
    }
  }

  /** An empty `findArray` gives the pattern "", which matches the empty string at every
      position, and `map[""]` is `undefined`. */
  function Interleave(s: string): string
  {
    if s == [] then "undefined" else "undefined" + [s[0]] + Interleave(s[1..])
  }

  /** What `replaceBulk(s, find, repl)` returns. */
  function BulkReplaced(s: string, find: seq<string>, repl: seq<string>): string
    requires NonEmptyFinds(find)
  {
    if |find| == 0 then Interleave(s) else Scan(s, find, Table(find, repl, |find|))
  }

  /** The `for` loop of `replaceBulk` that fills `map`. */
  method BuildTable(findArray: seq<string>, replaceArray: seq<string>) returns (table: map<string, string>)
    ensures table == Table(findArray, replaceArray, |findArray|)
  {
    table := map[];
    for i := 0 to |findArray|
      invariant table == Table(findArray, replaceArray, i)
    {
      table := table[findArray[i] := if i < |replaceArray| then replaceArray[i] else "undefined"];
    }
  }

  /** `replaceBulk`: the `for` loop fills `map`, then the string is replaced in one pass. */
  method ReplaceBulk(str: string, findArray: seq<string>, replaceArray: seq<string>) returns (r: string)
    requires NonEmptyFinds(findArray)
    ensures r == BulkReplaced(str, findArray, replaceArray)
  {
    var table := BuildTable(findArray, replaceArray);
    if |findArray| == 0 {
      r := Interleave(str);
    } else {
      r := Scan(str, findArray, table);
    }
  }

  /** No find string starts at position `p` of `s`. */
  predicate NoMatchAt(s: string, find: seq<string>, p: nat)
    requires p <= |s|
  {
    forall k :: 0 <= k < |find| ==> !StartsWith(s[p..], find[k])
  }

  /** No find string occurs anywhere in `s`. */
  predicate NoOccurrence(s: string, find: seq<string>)
  {
    forall p :: 0 <= p <= |s| ==> NoMatchAt(s, find, p)
  }

  /** A prefix of `s` at none of whose positions a find string starts is copied unchanged,
      and the rest is scanned on its own. */
  lemma {:induction false} ScanCopiesUnmatched(s: string, find: seq<string>, table: map<string, string>, u: nat)
    requires NonEmptyFinds(find)
    requires forall k :: 0 <= k < |find| ==> find[k] in table
    requires u <= |s|
    requires forall p :: 0 <= p < u ==> NoMatchAt(s, find, p)
    ensures Scan(s, find, table) == s[..u] + Scan(s[u..], find, table)
  {
    if u > 0 {
      assert NoMatchAt(s, find, 0);
      assert s[0..] == s;
      assert FirstMatch(s, find) == |find|;
      var t := s[1..];
      forall p | 0 <= p < u - 1
        ensures NoMatchAt(t, find, p)
      {
        assert NoMatchAt(s, find, p + 1);
        assert t[p..] == s[p + 1..];
      }
      ScanCopiesUnmatched(t, find, table, u - 1);
      assert t[u - 1..] == s[u..];
      assert s[..u] == [s[0]] + t[..u - 1];
    }
  }

  /** A string in which no find string occurs is returned unchanged. */
  lemma BulkReplacedUnchanged(s: string, find: seq<string>, repl: seq<string>)
    requires NonEmptyFinds(find)
    requires |find| > 0
    requires NoOccurrence(s, find)
    ensures BulkReplaced(s, find, repl) == s
  {
    ScanCopiesUnmatched(s, find, Table(find, repl, |find|), |s|);
    assert s[..|s|] == s;
  }

  /** With distinct find strings, `map[findArray[k]]` is `replaceArray[k]`; with repeated
      ones the last occurrence wins. */
  lemma {:induction false} TableLookup(find: seq<string>, repl: seq<string>, n: nat, k: nat)
    requires k < n <= |find|
    requires forall j :: k < j < n ==> find[j] != find[k]
    ensures Table(find, repl, n)[find[k]] == ReplacementAt(repl, k)
  {
    if k < n - 1 {
      TableLookup(find, repl, n - 1, k);
    }
  }

  /** Distinct find strings. */
  predicate Distinct(find: seq<string>)
  {
    forall i, j :: 0 <= i < j < |find| ==> find[i] != find[j]
  }

  /** Left to right, without overlap and without re-scanning: when `s` is `u + f + v`, no
      find string starts inside `u`, and `f` is the first alternative that matches at that
      point, the result is `u`, then `f`'s replacement, then the replace of `v` alone. */
  lemma BulkReplacedStep(s: string, find: seq<string>, repl: seq<string>, u: nat, k: nat)
    requires NonEmptyFinds(find) && Distinct(find)
    requires k < |find|
    requires u + |find[k]| <= |s|
    requires forall p :: 0 <= p < u ==> NoMatchAt(s, find, p)
    requires s[u..u + |find[k]|] == find[k]
    requires forall j :: 0 <= j < k ==> !StartsWith(s[u..], find[j])
    ensures BulkReplaced(s, find, repl) == s[..u] + ReplacementAt(repl, k) + BulkReplaced(s[u + |find[k]|..], find, repl)
  {
    var table := Table(find, repl, |find|);
    ScanCopiesUnmatched(s, find, table, u);
    var t := s[u..];
    assert StartsWith(t, find[k]);
    assert FirstMatch(t, find) == k;
    TableLookup(find, repl, |find|, k);
    assert t[|find[k]|..] == s[u + |find[k]|..];
  }

  /** A first character with which no find string starts is copied, and the rest is
      replaced on its own. */
  lemma BulkReplacedCons(c: char, s: string, find: seq<string>, repl: seq<string>)
    requires NonEmptyFinds(find) && |find| > 0
    requires forall k :: 0 <= k < |find| ==> find[k][0] != c
    ensures BulkReplaced([c] + s, find, repl) == [c] + BulkReplaced(s, find, repl)
  {
    assert FirstMatch([c] + s, find) == |find|;
    assert ([c] + s)[1..] == s;
  }

  /** A find string that `s` starts with also starts `s + t`, and one `s + t` starts with
      that fits in `s` starts `s`. */
  lemma StartsWithExtend(s: string, t: string, f: string)
    ensures StartsWith(s, f) ==> StartsWith(s + t, f)
    ensures |f| <= |s| && StartsWith(s + t, f) ==> StartsWith(s, f)
  {
    if |f| <= |s| {
      assert (s + t)[..|f|] == s[..|f|];
    }
  }

  /** `c` occurs in no find string. */
  predicate Outside(c: char, find: seq<string>)
  {
    forall k :: 0 <= k < |find| ==> c !in find[k]
  }

  /** A match at the start of `x + y` that the first character of `y` cannot be part of
      is the match at the start of `x`. */
  lemma {:induction false} FirstMatchPrefix(x: string, y: string, find: seq<string>)
    requires NonEmptyFinds(find)
    requires x != [] && y != []
    requires Outside(y[0], find)
    ensures FirstMatch(x + y, find) == FirstMatch(x, find)
    ensures FirstMatch(x, find) < |find| ==> |find[FirstMatch(x, find)]| <= |x|
  {
    var s := x + y;
    var k := FirstMatch(s, find);
    var k' := FirstMatch(x, find);
    if k < |find| {
      assert s[|x|] == y[0];
      assert forall i :: 0 <= i < |find[k]| ==> find[k][i] == s[i];
      assert |find[k]| <= |x|;
      StartsWithExtend(x, y, find[k]);
    }
    if k' < |find| {
      StartsWithExtend(x, y, find[k']);
    }
  }

  /** The first step of the scan of `x + y` is the first step of the scan of `x`, when no
      find string contains the first character of `y`: the same text `h` is produced and
      the same `n` characters are consumed. */
  lemma ScanHead(x: string, y: string, find: seq<string>, table: map<string, string>) returns (n: nat, h: string)
    requires NonEmptyFinds(find)
    requires forall k :: 0 <= k < |find| ==> find[k] in table
    requires x != [] && y != []
    requires Outside(y[0], find)
    ensures 1 <= n <= |x|
    ensures Scan(x, find, table) == h + Scan(x[n..], find, table)
    ensures Scan(x + y, find, table) == h + Scan(x[n..] + y, find, table)
  {
    FirstMatchPrefix(x, y, find);
    var n', h';
    n, h := ScanStep(x, find, table);
    n', h' := ScanStep(x + y, find, table);
    assert (x + y)[0] == x[0];
    assert n' == n && h' == h;
    DropConcat(x, y, n);
  }

  /** The scan of `x + y`, when no find string contains the first character of `y`, is the
      scan of `x` followed by the scan of `y`: no match straddles the boundary. */
  lemma {:induction false} ScanSplit(x: string, y: string, find: seq<string>, table: map<string, string>)
    requires NonEmptyFinds(find)
    requires forall k :: 0 <= k < |find| ==> find[k] in table
    requires y != []
    requires Outside(y[0], find)
    ensures Scan(x + y, find, table) == Scan(x, find, table) + Scan(y, find, table)
    decreases |x|
  {
    if x == [] {
      assert x + y == y;
    } else {
      var n, h := ScanHead(x, y, find, table);
      ScanSplit(x[n..], y, find, table);
      ConcatAssoc(h, Scan(x[n..], find, table), Scan(y, find, table));
    }
  }

  /** `replaceBulk` of `x + y`, when no find string contains the first character of `y`, is
      `replaceBulk` of `x` followed by `replaceBulk` of `y`. */
  lemma BulkReplacedSplit(x: string, y: string, find: seq<string>, repl: seq<string>)
    requires NonEmptyFinds(find) && |find| > 0
    requires y != []
    requires Outside(y[0], find)
    ensures BulkReplaced(x + y, find, repl) == BulkReplaced(x, find, repl) + BulkReplaced(y, find, repl)
  {
    ScanSplit(x, y, find, Table(find, repl, |find|));
  }

  /** No find string starts with `c`. */
  predicate NoneStartsWith(find: seq<string>, c: char)
    requires NonEmptyFinds(find)
  {
    forall k :: 0 <= k < |find| ==> find[k][0] != c
  }

  /** A prefix none of whose characters starts a find string is copied unchanged. */
  lemma {:induction false} BulkReplacedPrefix(p: string, s: string, find: seq<string>, repl: seq<string>)
    requires NonEmptyFinds(find) && |find| > 0
    requires forall i :: 0 <= i < |p| ==> NoneStartsWith(find, p[i])
    ensures BulkReplaced(p + s, find, repl) == p + BulkReplaced(s, find, repl)
  {
    if p != [] {
      var c, rest := p[0], p[1..];
      assert NoneStartsWith(find, c);
      assert forall i :: 0 <= i < |rest| ==> rest[i] == p[i + 1];
      assert p + s == [c] + (rest + s);
      calc {
        BulkReplaced(p + s, find, repl);
        BulkReplaced([c] + (rest + s), find, repl);
        { BulkReplacedCons(c, rest + s, find, repl); }
        [c] + BulkReplaced(rest + s, find, repl);
        { BulkReplacedPrefix(rest, s, find, repl); }
        [c] + (rest + BulkReplaced(s, find, repl));
        { assert p == [c] + rest; }
        p + BulkReplaced(s, find, repl);
      }
    } else {
      assert p + s == s;
    }
  }
}
