/** The edge-dropout schedule of the training loop: with augmentation "ED",
    every `ed_interval_bs`-th global batch is run with edge dropout. */
module Schedule {
  import opened Basics

  /** Python's `int(x)`: truncation toward zero. */
  function Trunc(x: real): (i: int)
    ensures 0.0 <= x ==> i as real <= x < i as real + 1.0
    ensures x < 0.0 ==> i as real - 1.0 < x <= i as real
  {
    if x >= 0.0 then x.Floor else -((-x).Floor)
  }

  /** `ed_interval_bs = int(batch_cnt * conf["ed_interval"])`. */
  function IntervalBatches(batchCnt: nat, edInterval: real): (q: int)
    ensures 0.0 <= edInterval ==> 0 <= q && q as real <= batchCnt as real * edInterval < q as real + 1.0
    ensures edInterval < 0.0 && batchCnt > 0 ==> q <= 0
  {
    Trunc(batchCnt as real * edInterval)
  }

  /** `batch_anchor = epoch * batch_cnt + batch_i`. */
  function Anchor(epoch: nat, batchCnt: nat, batchI: nat): (a: nat)
    ensures batchI < batchCnt ==> a / batchCnt == epoch && a % batchCnt == batchI
  {
    assert batchI < batchCnt ==>
      (epoch * batchCnt + batchI) / batchCnt == epoch && (epoch * batchCnt + batchI) % batchCnt == batchI
    by {
      if batchI < batchCnt {
        assert epoch * batchCnt == batchCnt * epoch;
        DivOfSum(epoch, batchI, batchCnt);
      }
    }
    epoch * batchCnt + batchI
  }

  /** `q` divides `a`. */
  ghost predicate Divides(q: int, a: int)
  {
    exists m: int :: m * q == a
  }

  /** `ED_drop` for one batch: only "ED" consults the interval, so a zero
      interval raises only then. */
  function EdDrop(augType: string, anchor: nat, intervalBs: int): (r: Result<bool>)
    ensures r.Err? <==> augType == "ED" && intervalBs == 0
    ensures r.Err? ==> r.error == DivisionByZero
  {
    if augType != "ED" then Ok(false)
    else if intervalBs == 0 then Err(DivisionByZero)
    else Ok((anchor + 1) % intervalBs == 0)
  }

  /** A zero remainder means divisibility, for either sign of the divisor;
      Python's `%` and Dafny's agree on when the remainder is zero. */
  lemma ModZeroIffDivides(a: int, q: int)
    requires q != 0
    ensures a % q == 0 <==> Divides(q, a)
  {
    if a % q == 0 {
      assert (a / q) * q == a;
    } else if Divides(q, a) {
      var m :| m * q == a;
      ModOfMultiple(m, q);
    }
  }

  lemma {:induction false} MulAtLeast(x: nat, q: nat)
    requires x >= 1
    ensures x * q >= q
  {
    if x > 1 {
      MulAtLeast(x - 1, q);
      assert x * q == (x - 1) * q + q;
    }
  }

  /** A non-zero multiple of `q` is at least `|q|` away from zero. */
  lemma MultipleAwayFromZero(d: int, q: int)
    requires d != 0
    ensures d * q >= (if q >= 0 then q else -q) || d * q <= -(if q >= 0 then q else -q)
  {
    var ad, aq := if d >= 0 then d else -d, if q >= 0 then q else -q;
    MulAtLeast(ad, aq);
    if d >= 0 && q >= 0 {
      assert d * q == ad * aq;
    } else if d >= 0 {
      assert d * q == -(ad * aq);
    } else if q >= 0 {
      assert d * q == -(ad * aq);
    } else {
      assert d * q == ad * aq;
    }
  }

  lemma ModOfMultiple(m: int, q: int)
    requires q != 0
    ensures (m * q) % q == 0
  {
    var a := m * q;
    var d := m - a / q;
    assert a == (a / q) * q + a % q;
    assert d * q == a % q;
    if d != 0 {
      MultipleAwayFromZero(d, q);
    }
  }

  /** With "ED", the batch drops edges exactly when the next anchor is a
      multiple of the interval; with any other mode it never does. */
  lemma EdDropIffMultiple(augType: string, anchor: nat, intervalBs: int)
    requires augType != "ED" || intervalBs != 0
    ensures EdDrop(augType, anchor, intervalBs) == Ok(augType == "ED" && Divides(intervalBs, anchor + 1))
  {
    if augType == "ED" {
      ModZeroIffDivides(anchor + 1, intervalBs);
    }
  }

  /** Dropping batches among the global anchors `0 .. n-1`. */
  function DropsBelow(n: nat, intervalBs: int): (c: nat)
    requires intervalBs != 0
    ensures c <= n
  {
    if n == 0 then 0
    else DropsBelow(n - 1, intervalBs) + if EdDrop("ED", n - 1, intervalBs) == Ok(true) then 1 else 0
  }

  /** With a positive interval `q`, `n / q` of the first `n` batches drop edges. */
  lemma {:induction false} DropsBelowCount(n: nat, q: nat)
    requires q > 0
    ensures DropsBelow(n, q) == n / q
  {
    if n > 0 {
      DropsBelowCount(n - 1, q);
      DivStep(n - 1, q);
    }
  }

  /** The quotient by `q` grows by one exactly at the multiples of `q`. */
  lemma DivStep(a: nat, q: nat)
    requires q > 0
    ensures (a + 1) / q == a / q + if (a + 1) % q == 0 then 1 else 0
  {
    assert a == q * (a / q) + a % q;
    if a % q == q - 1 {
      assert a + 1 == q * (a / q + 1) + 0;
      DivOfSum(a / q + 1, 0, q);
    } else {
      assert a + 1 == q * (a / q) + (a % q + 1) && 0 <= a % q + 1 < q;
      DivOfSum(a / q, a % q + 1, q);
    }
  }

  lemma DivOfSum(m: nat, r: nat, q: nat)
    requires q > 0 && r < q
    ensures (q * m + r) / q == m && (q * m + r) % q == r
  {
    var a := q * m + r;
    var d := m - a / q;
    assert a == q * (a / q) + a % q;
    assert d * q == a % q - r;
    if d != 0 {
      MultipleAwayFromZero(d, q);
    }
  }

  /** With `ed_interval` 1.0 the interval is one epoch: only the last batch
      of every epoch drops edges. */
  lemma OncePerEpoch(epoch: nat, batchCnt: nat, batchI: nat)
    requires 0 < batchCnt && batchI < batchCnt
    ensures IntervalBatches(batchCnt, 1.0) == batchCnt
    ensures EdDrop("ED", Anchor(epoch, batchCnt, batchI), batchCnt) == Ok(batchI == batchCnt - 1)
  {
    var a := Anchor(epoch, batchCnt, batchI) + 1;
    if batchI == batchCnt - 1 {
      assert a == batchCnt * (epoch + 1) + 0;
      DivOfSum(epoch + 1, 0, batchCnt);
    } else {
      assert a == batchCnt * epoch + (batchI + 1);
      DivOfSum(epoch, batchI + 1, batchCnt);
    }
  }

  /** An `ed_interval` below one batch truncates to zero batches, and then
      every "ED" batch raises at the modulo. */
  lemma TinyIntervalRaises(batchCnt: nat, edInterval: real, anchor: nat)
    requires 0.0 <= edInterval && batchCnt as real * edInterval < 1.0
    ensures IntervalBatches(batchCnt, edInterval) == 0
    ensures EdDrop("ED", anchor, IntervalBatches(batchCnt, edInterval)) == Err(DivisionByZero)
  {
    assert 0.0 <= batchCnt as real * edInterval by {
      if batchCnt > 0 { assert batchCnt as real > 0.0; }
    }
  }
}
