/** Shared vocabulary of the evaluation engine: the errors a pass can raise,
    a result type for them, and counting over boolean rows. */
module Basics {

  /** The exceptions the evaluation and selection code can end in. */
  datatype Error =
    | TopKOutOfRange     // torch.topk asked for more columns than a row has
    | EmptyConcat        // torch.cat over an empty list of batches
    | DivisionByZero     // a final sum/count with count 0, or a modulo by 0
    | AssertionFailed    // an `assert` of the run configuration
    | MissingKey         // a dictionary lookup of a key that is not there

  datatype Result<T> = Ok(value: T) | Err(error: Error)

  function B2I(b: bool): nat { if b then 1 else 0 }

  /** Number of positions of `s` holding `v` (a row sum of a 0/1 tensor). */
  function Count(s: seq<bool>, v: bool): (c: nat)
    ensures c <= |s|
    ensures c == 0 <==> forall i :: 0 <= i < |s| ==> s[i] != v
  {
    if |s| == 0 then 0 else B2I(s[0] == v) + Count(s[1..], v)
  }

  lemma {:induction false} CountSplit(s: seq<bool>)
    ensures Count(s, true) + Count(s, false) == |s|
  {
    if |s| > 0 { CountSplit(s[1..]); }
  }

  lemma {:induction false} CountAppend(s: seq<bool>, t: seq<bool>, v: bool)
    ensures Count(s + t, v) == Count(s, v) + Count(t, v)
  {
    if |s| == 0 {
      assert s + t == t;
    } else {
      assert (s + t)[1..] == s[1..] + t;
      CountAppend(s[1..], t, v);
    }
  }

  /** Clearing one position holding `v` lowers the count of `v` by exactly one. */
  lemma {:induction false} CountUpdate(s: seq<bool>, p: nat, v: bool)
    requires p < |s|
    ensures Count(s[p := !v], v) == Count(s, v) - B2I(s[p] == v)
  {
    if p > 0 {
      assert s[p := !v][1..] == s[1..][p - 1 := !v];
      CountUpdate(s[1..], p - 1, v);
    }
  }

  /** The positions of `s` holding `v`. */
  function Positions(s: seq<bool>, v: bool): set<nat>
  {
    set i: nat | i < |s| && s[i] == v
  }

  /** The count is the number of positions holding `v`. */
  lemma {:induction false} CountIsCard(s: seq<bool>, v: bool)
    ensures Count(s, v) == |Positions(s, v)|
  {
    if |s| > 0 {
      var n := |s| - 1;
      CountIsCard(s[..n], v);
      CountAppend(s[..n], [s[n]], v);
      assert s[..n] + [s[n]] == s;
      PositionsSnoc(s, v);
      if s[n] == v {
        assert |Positions(s[..n], v) + {n}| == |Positions(s[..n], v)| + 1;
      }
    }
  }

  lemma PositionsSnoc(s: seq<bool>, v: bool)
    requires |s| > 0
    ensures |s| - 1 !in Positions(s[..|s| - 1], v)
    ensures Positions(s, v) == Positions(s[..|s| - 1], v) + (if s[|s| - 1] == v then {|s| - 1} else {})
  {
    var n := |s| - 1;
    var front, all := Positions(s[..n], v), Positions(s, v);
    forall i: nat ensures i in all <==> i in front + (if s[n] == v then {n} else {}) {
      if i < n { assert s[..n][i] == s[i]; }
    }
  }

  /** No index occurs twice. */
  predicate Distinct(s: seq<nat>)
  {
    forall i, j :: 0 <= i < j < |s| ==> s[i] != s[j]
  }

  /** `g` read at the positions `cols`, in order: `is_hit[j] = grd[col[j]]`. */
  function Gather<T>(g: seq<T>, cols: seq<nat>): (r: seq<T>)
    requires forall j :: 0 <= j < |cols| ==> cols[j] < |g|
    ensures |r| == |cols|
    ensures forall j :: 0 <= j < |cols| ==> r[j] == g[cols[j]]
  {
    if |cols| == 0 then [] else [g[cols[0]]] + Gather(g, cols[1..])
  }

  lemma {:induction false} GatherIgnoresOthers(g: seq<bool>, cols: seq<nat>, p: nat, v: bool)
    requires p < |g| && p !in cols
    requires forall j :: 0 <= j < |cols| ==> cols[j] < |g|
    ensures Gather(g[p := v], cols) == Gather(g, cols)
  {
  }

  /** Reading a row at distinct positions finds at most as many `v` as the row holds. */
  lemma {:induction false} GatherCountBound(g: seq<bool>, cols: seq<nat>, v: bool)
    requires Distinct(cols)
    requires forall j :: 0 <= j < |cols| ==> cols[j] < |g|
    ensures Count(Gather(g, cols), v) <= Count(g, v)
    decreases |cols|
  {
    if |cols| > 0 {
      var c, rest := cols[0], cols[1..];
      assert c !in rest by {
        forall j | 0 <= j < |rest| ensures rest[j] != c { assert cols[0] != cols[j + 1]; }
      }
      var g' := g[c := !v];
      GatherIgnoresOthers(g, rest, c, !v);
      GatherCountBound(g', rest, v);
      CountUpdate(g, c, v);
      assert Gather(g, cols)[1..] == Gather(g, rest);
    }
  }

  /** The values a sequence holds. */
  function Elements(s: seq<nat>): set<nat>
  {
    set j | 0 <= j < |s| :: s[j]
  }

  /** The number of elements of a sequence, counted as a set, never exceeds its length. */
  lemma {:induction false} SetOfSeqCard(s: seq<nat>)
    ensures |Elements(s)| <= |s|
  {
    if |s| > 0 {
      var n := |s| - 1;
      SetOfSeqCard(s[..n]);
      assert Elements(s) == Elements(s[..n]) + {s[n]} by {
        forall x ensures x in Elements(s) <==> x in Elements(s[..n]) + {s[n]} {
          if x in Elements(s) {
            var j :| 0 <= j < |s| && s[j] == x;
            if j < n { assert s[..n][j] == x; }
          }
          if x in Elements(s[..n]) {
            var j :| 0 <= j < n && s[..n][j] == x;
            assert s[j] == x;
          }
        }
      }
    }
  }

  /** Concatenation of a list of per-batch pieces, in batch order (torch.cat). */
  function Flatten<T>(xss: seq<seq<T>>): (r: seq<T>)
    ensures |r| == TotalLength(xss)
  {
    if |xss| == 0 then [] else xss[0] + Flatten(xss[1..])
  }

  function TotalLength<T>(xss: seq<seq<T>>): nat
  {
    if |xss| == 0 then 0 else |xss[0]| + TotalLength(xss[1..])
  }

  /** Where piece `b` starts in the concatenation. */
  function Start<T>(xss: seq<seq<T>>, b: nat): (s: nat)
    requires b <= |xss|
    ensures s == TotalLength(xss[..b])
  {
    if b == 0 then 0 else
      assert xss[..b][1..] == xss[1..][..b - 1];
      |xss[0]| + Start(xss[1..], b - 1)
  }

  /** Row `r` of piece `b` sits at `Start(xss, b) + r` of the concatenation. */
  lemma {:induction false} FlattenAt<T>(xss: seq<seq<T>>, b: nat, r: nat)
    requires b < |xss| && r < |xss[b]|
    ensures Start(xss, b) + r < |Flatten(xss)|
    ensures Flatten(xss)[Start(xss, b) + r] == xss[b][r]
  {
    if b > 0 {
      FlattenAt(xss[1..], b - 1, r);
    } else {
      TotalLengthBound(xss);
    }
  }

  lemma {:induction false} TotalLengthBound<T>(xss: seq<seq<T>>)
    requires |xss| > 0
    ensures |xss[0]| <= TotalLength(xss)
  {
  }

  /** Two lists of pieces with the same piece lengths concatenate to the same
      length, and piece `b` starts at the same offset in both. */
  lemma {:induction false} SameStart<T, U>(xss: seq<seq<T>>, yss: seq<seq<U>>, b: nat)
    requires |xss| == |yss| && forall i :: 0 <= i < |xss| ==> |xss[i]| == |yss[i]|
    requires b <= |xss|
    ensures TotalLength(xss) == TotalLength(yss)
    ensures Start(xss, b) == Start(yss, b)
  {
    if |xss| > 0 {
      SameStart(xss[1..], yss[1..], if b == 0 then 0 else b - 1);
    }
  }

  /** Concatenating two lists of pieces with the same piece lengths puts row
      `r` of piece `b` of each at the same position. */
  lemma FlattenAligned<T, U>(xss: seq<seq<T>>, yss: seq<seq<U>>, b: nat, r: nat)
    requires |xss| == |yss| && forall i :: 0 <= i < |xss| ==> |xss[i]| == |yss[i]|
    requires b < |xss| && r < |xss[b]|
    ensures |Flatten(xss)| == |Flatten(yss)|
    ensures Start(xss, b) + r < |Flatten(xss)|
    ensures Flatten(xss)[Start(xss, b) + r] == xss[b][r]
    ensures Flatten(yss)[Start(xss, b) + r] == yss[b][r]
  {
    SameStart(xss, yss, b);
    FlattenAt(xss, b, r);
    FlattenAt(yss, b, r);
  }

  /** `f` may be applied to every element of `xs`. */
  ghost predicate Defined<A, B>(f: A --> B, xs: seq<A>)
  {
    forall i :: 0 <= i < |xs| ==> f.requires(xs[i])
  }

  /** `f` applied to every element of `xs`, in order. */
  function MapSeq<A, B>(f: A --> B, xs: seq<A>): (r: seq<B>)
    requires Defined(f, xs)
    ensures |r| == |xs| && forall i :: 0 <= i < |xs| ==> r[i] == f(xs[i])
  {
    if |xs| == 0 then [] else [f(xs[0])] + MapSeq(f, xs[1..])
  }

  /** A contiguous slice of a defined list is defined. */
  lemma DefinedSlice<A, B>(f: A --> B, xs: seq<A>, lo: nat, hi: nat)
    requires Defined(f, xs) && lo <= hi <= |xs|
    ensures Defined(f, xs[lo..hi])
  {
    forall i | 0 <= i < hi - lo ensures f.requires(xs[lo..hi][i]) {
      assert xs[lo..hi][i] == xs[lo + i];
    }
  }

  lemma MapAppend<A, B>(f: A --> B, xs: seq<A>, ys: seq<A>)
    requires Defined(f, xs) && Defined(f, ys)
    ensures Defined(f, xs + ys)
    ensures MapSeq(f, xs + ys) == MapSeq(f, xs) + MapSeq(f, ys)
  {
    forall i | 0 <= i < |xs + ys| ensures f.requires((xs + ys)[i]) {
      if i >= |xs| { assert (xs + ys)[i] == ys[i - |xs|]; }
    }
    var l, r := MapSeq(f, xs + ys), MapSeq(f, xs) + MapSeq(f, ys);
    forall i | 0 <= i < |l| ensures l[i] == r[i] {
      if i >= |xs| { assert (xs + ys)[i] == ys[i - |xs|]; }
    }
  }

  /** An element of a non-empty sequence is in its front or is its last. */
  lemma InPrefixOrLast<T>(s: seq<T>, x: T)
    requires |s| > 0
    ensures x in s <==> x in s[..|s| - 1] || x == s[|s| - 1]
  {
    assert s == s[..|s| - 1] + [s[|s| - 1]];
  }

  /** A subset is no larger, and a proper subset strictly smaller. */
  lemma SubsetCard<T>(a: set<T>, b: set<T>)
    requires a <= b
    ensures |a| <= |b|
    ensures a < b ==> |a| < |b|
  {
    assert b == a + (b - a);
    assert a !! (b - a);
  }

  /** Fewer than `n` numbers cannot cover all of `0 .. n-1`. */
  lemma {:induction false} Pigeonhole(s: seq<nat>, n: nat)
    requires |s| < n
    ensures exists c :: 0 <= c < n && c !in s
  {
    if n - 1 in s {
      var i :| 0 <= i < |s| && s[i] == n - 1;
      var rest := s[..i] + s[i + 1..];
      Pigeonhole(rest, n - 1);
      var c :| 0 <= c < n - 1 && c !in rest;
      assert s == s[..i] + [s[i]] + s[i + 1..];
      assert c !in s;
    }
  }

  /** The first `i + 1` elements are the first `i` and element `i`. */
  lemma PrefixSnoc<T>(xs: seq<T>, i: nat)
    requires i < |xs|
    ensures xs[..i + 1] == xs[..i] + [xs[i]]
  {
  }

  /** Removing a later element keeps the head, and removes the same element
      from the tail. */
  lemma RemoveLater<T>(xs: seq<T>, i: nat)
    requires 0 < i < |xs|
    ensures xs[1..][i - 1] == xs[i]
    ensures (xs[..i] + xs[i + 1..])[0] == xs[0]
    ensures (xs[..i] + xs[i + 1..])[1..] == xs[1..][..i - 1] + xs[1..][i..]
  {
    assert (xs[..i] + xs[i + 1..])[1..] == xs[1..][..i - 1] + xs[1..][i..];
  }

  /** Equal multisets stay equal once the same element is taken out of both. */
  lemma RemoveMatching<T>(xs: seq<T>, ys: seq<T>, j: nat)
    requires multiset(xs) == multiset(ys) && |xs| > 0 && j < |ys| && ys[j] == xs[0]
    ensures multiset(xs[1..]) == multiset(ys[..j] + ys[j + 1..])
  {
    assert xs == [xs[0]] + xs[1..];
    assert ys == ys[..j] + [ys[j]] + ys[j + 1..];
    assert multiset(xs[1..]) == multiset(xs) - multiset{xs[0]};
    assert multiset(ys[..j] + ys[j + 1..]) == multiset(ys) - multiset{ys[j]};
  }

  /** Taking element `j` out of the list takes its image out of the images. */
  lemma MapRemove<A, B>(f: A --> B, ys: seq<A>, j: nat)
    requires Defined(f, ys) && j < |ys|
    ensures Defined(f, ys[..j] + ys[j + 1..])
    ensures multiset(MapSeq(f, ys)) == multiset(MapSeq(f, ys[..j] + ys[j + 1..])) + multiset{f(ys[j])}
  {
    var front, rest, back := ys[..j], ys[j..], ys[j + 1..];
    DefinedSlice(f, ys, 0, j);
    DefinedSlice(f, ys, j, |ys|);
    DefinedSlice(f, ys, j + 1, |ys|);
    assert ys == front + rest && rest[1..] == back;
    MapAppend(f, front, rest);
    MapAppend(f, front, back);
    MultisetMiddle(MapSeq(f, front), f(ys[j]), MapSeq(f, back));
  }

  lemma MultisetMiddle<T>(a: seq<T>, x: T, b: seq<T>)
    ensures multiset(a + ([x] + b)) == multiset(a + b) + multiset{x}
  {
  }

  /** Mapping a permutation gives a permutation of the images. */
  lemma {:induction false} MapPermute<A, B>(f: A --> B, xs: seq<A>, ys: seq<A>)
    requires Defined(f, xs) && Defined(f, ys)
    requires multiset(xs) == multiset(ys)
    ensures multiset(MapSeq(f, xs)) == multiset(MapSeq(f, ys))
    decreases |xs|
  {
    if |xs| == 0 {
      assert |ys| == |multiset(ys)| == 0;
    } else {
      assert xs[0] in multiset(ys);
      var j :| 0 <= j < |ys| && ys[j] == xs[0];
      var xr, yr := xs[1..], ys[..j] + ys[j + 1..];
      RemoveMatching(xs, ys, j);
      MapRemove(f, ys, j);
      assert MapSeq(f, xs) == [f(xs[0])] + MapSeq(f, xr);
      MapPermute(f, xr, yr);
      SwapLast(multiset(MapSeq(f, xs)), multiset(MapSeq(f, xr)), multiset(MapSeq(f, ys)), multiset(MapSeq(f, yr)), f(xs[0]));
    }
  }

  lemma SwapLast<B>(a: multiset<B>, ar: multiset<B>, b: multiset<B>, br: multiset<B>, x: B)
    requires a == ar + multiset{x} && b == br + multiset{x} && ar == br
    ensures a == b
  {
  }
}
