/** The Matthews correlation of a confusion matrix, its clamp, and what fixing one verdict does to it.

    The square root is a parameter `root` known only by `root(x) * root(x) == x`; every comparison
    is made on squared, cross-multiplied integers.
 */
module Correlation {

  datatype Tally = Tally(tp: nat, tn: nat, fp: nat, fn: nat)

  ghost predicate IsRoot(root: real -> real) {
    forall x :: x >= 0.0 ==> root(x) >= 0.0 && root(x) * root(x) == x
  }

  function Margins(c: Tally): int {
    (c.tp + c.fp) * (c.tp + c.fn) * (c.tn + c.fp) * (c.tn + c.fn)
  }

  function Covariance(c: Tally): int {
    c.tp * c.tn - c.fp * c.fn
  }

  function Mcc(root: real -> real, c: Tally): real {
    var denom := root(Margins(c) as real);
    if denom == 0.0 then 0.0 else Covariance(c) as real / denom
  }

  function ClampedMcc(root: real -> real, c: Tally): real {
    if Mcc(root, c) > 0.0 then Mcc(root, c) else 0.0
  }

  // ----- the integers behind it

  lemma MarginsNonNegative(c: Tally)
    ensures Margins(c) >= 0
  {
    var a, b := (c.tp + c.fp) * (c.tp + c.fn), (c.tn + c.fp) * (c.tn + c.fn);
    assert a >= 0 && b >= 0;
    assert Margins(c) == a * b;
  }

  /** How far the squared covariance stays below the product of the margins. */
  function Slack(c: Tally): int {
    var u, v, w := c.tp * c.tn + c.fp * c.fn, c.tp * c.fn + c.tn * c.fp, c.tp * c.fp + c.tn * c.fn;
    u * v + u * w + v * w + 4 * (c.tp * c.tn) * (c.fp * c.fn)
  }

  lemma SlackIdentity(c: Tally)
    ensures Margins(c) == Covariance(c) * Covariance(c) + Slack(c)
  {
    var ab, cd, ad, cb, ac, db := c.tp * c.tn, c.fp * c.fn, c.tp * c.fn, c.tn * c.fp, c.tp * c.fp, c.tn * c.fn;
    assert (c.tp + c.fp) * (c.tn + c.fn) == ab + ad + cb + cd by {
      assert (c.tp + c.fp) * (c.tn + c.fn) == c.tp * (c.tn + c.fn) + c.fp * (c.tn + c.fn);
    }
    assert (c.tp + c.fn) * (c.tn + c.fp) == ab + ac + db + cd by {
      assert (c.tp + c.fn) * (c.tn + c.fp) == c.tp * (c.tn + c.fp) + c.fn * (c.tn + c.fp);
    }
    Regroup(c.tp + c.fp, c.tp + c.fn, c.tn + c.fp, c.tn + c.fn);
    Expand(ab, cd, ad + cb, ac + db);
  }

  lemma Regroup(p: int, q: int, r: int, s: int)
    ensures p * q * r * s == (p * s) * (q * r)
  {
    assert p * q * r * s == p * (q * r) * s;
    assert p * (q * r) * s == (p * s) * (q * r);
  }

  lemma Expand(a: int, b: int, v: int, w: int)
    ensures (a + b + v) * (a + b + w) == (a - b) * (a - b) + ((a + b) * v + (a + b) * w + v * w + 4 * a * b)
  {
    var u := a + b;
    assert (u + v) * (u + w) == u * u + u * v + u * w + v * w;
    assert u * u == (a - b) * (a - b) + 4 * a * b;
  }

  lemma SlackNonNegative(c: Tally)
    ensures Slack(c) >= 0
  {
    var ab, cd := c.tp * c.tn, c.fp * c.fn;
    var u, v, w := ab + cd, c.tp * c.fn + c.tn * c.fp, c.tp * c.fp + c.tn * c.fn;
    NonNegativeProduct(c.tp, c.tn);
    NonNegativeProduct(c.fp, c.fn);
    NonNegativeProduct(c.tp, c.fn);
    NonNegativeProduct(c.tn, c.fp);
    NonNegativeProduct(c.tp, c.fp);
    NonNegativeProduct(c.tn, c.fn);
    NonNegativeProduct(u, v);
    NonNegativeProduct(u, w);
    NonNegativeProduct(v, w);
    NonNegativeProduct(4 * ab, cd);
  }

  lemma NonNegativeProduct(x: int, y: int)
    requires x >= 0 && y >= 0
    ensures x * y >= 0
    ensures x > 0 && y > 0 ==> x * y > 0
    ensures x == 0 || y == 0 ==> x * y == 0
  {
  }

  /** With positive covariance, the slack is nothing exactly when no verdict is wrong. */
  lemma SlackZero(c: Tally)
    ensures Covariance(c) > 0 ==> c.tp > 0 && c.tn > 0
    ensures Covariance(c) > 0 && (c.fn > 0 || c.fp > 0) ==> Slack(c) > 0
    ensures c.fn == 0 && c.fp == 0 ==> Slack(c) == 0
    ensures c.fp == 0 && c.fn == 0 && c.tp > 0 && c.tn > 0 ==> Covariance(c) > 0
  {
    NonNegativeProduct(c.tp, c.tn);
    NonNegativeProduct(c.fp, c.fn);
    if Covariance(c) > 0 && (c.fn > 0 || c.fp > 0) {
      WrongLeavesSlack(c);
    }
  }

  lemma WrongLeavesSlack(c: Tally)
    requires c.tp > 0 && c.tn > 0 && (c.fn > 0 || c.fp > 0)
    ensures Slack(c) > 0
  {
    var ab, cd := c.tp * c.tn, c.fp * c.fn;
    var u, v, w := ab + cd, c.tp * c.fn + c.tn * c.fp, c.tp * c.fp + c.tn * c.fn;
    NonNegativeProduct(c.tp, c.tn);
    NonNegativeProduct(c.fp, c.fn);
    NonNegativeProduct(c.tp, c.fn);
    NonNegativeProduct(c.tn, c.fp);
    NonNegativeProduct(c.tp, c.fp);
    NonNegativeProduct(c.tn, c.fn);
    NonNegativeProduct(u, v);
    NonNegativeProduct(u, w);
    NonNegativeProduct(v, w);
    NonNegativeProduct(4 * ab, cd);
  }

  lemma NoMarginNoCovariance(c: Tally)
    ensures Covariance(c) > 0 ==> Margins(c) > 0
  {
    SlackIdentity(c);
    SlackNonNegative(c);
    if Covariance(c) > 0 {
      NonNegativeProduct(Covariance(c), Covariance(c));
    }
  }

  // ----- the real value

  lemma RootPositive(root: real -> real, x: real)
    requires IsRoot(root)
    requires x >= 0.0
    ensures root(x) > 0.0 <==> x > 0.0
  {
    SignOfRoot(root(x), x);
  }

  lemma SignOfRoot(r: real, x: real)
    requires r >= 0.0 && r * r == x
    ensures r > 0.0 <==> x > 0.0
  {
    assert Product(r, r) == x;
    hide Product;
    ProductSign(r, r);
  }

  function Product(x: real, y: real): real {
    x * y
  }

  lemma ProductSign(x: real, y: real)
    ensures x > 0.0 && y > 0.0 ==> Product(x, y) > 0.0
    ensures x == 0.0 ==> Product(x, y) == 0.0
  {
  }

  /** The clamped value is the positive part of the covariance over the root of the margins. */
  lemma ClampedSign(root: real -> real, c: Tally)
    requires IsRoot(root)
    ensures Covariance(c) <= 0 ==> ClampedMcc(root, c) == 0.0
    ensures Covariance(c) > 0 ==>
              Margins(c) > 0 && root(Margins(c) as real) > 0.0
              && ClampedMcc(root, c) == Covariance(c) as real / root(Margins(c) as real) > 0.0
  {
    MarginsNonNegative(c);
    RootPositive(root, Margins(c) as real);
    if Covariance(c) > 0 {
      NoMarginNoCovariance(c);
      QuotientSign(Covariance(c) as real, root(Margins(c) as real));
    } else if root(Margins(c) as real) > 0.0 {
      QuotientSign(Covariance(c) as real, root(Margins(c) as real));
    }
  }

  lemma QuotientSign(x: real, d: real)
    requires d > 0.0
    ensures x > 0.0 <==> x / d > 0.0
  {
    assert x / d * d == x;
  }

  /** x / r against y / s through squares. */
  lemma QuotientOrder(x: real, r: real, y: real, s: real)
    requires x > 0.0 && y > 0.0 && r > 0.0 && s > 0.0
    requires (x * x) * (s * s) <= (y * y) * (r * r)
    ensures x / r <= y / s
  {
    var a, b := x * s, y * r;
    assert a * a == (x * x) * (s * s) by { Swap(x, s); }
    assert b * b == (y * y) * (r * r) by { Swap(y, r); }
    SquareGrows(a, b);
    CrossDivide(x, r, y, s);
  }

  lemma SquareGrows(a: real, b: real)
    requires b >= 0.0
    ensures a > b ==> a * a > b * b
  {
    if a > b {
      var d := a - b;
      assert d * d > 0.0 by { PositiveSquare(d); }
      assert a * a == b * b + 2.0 * (b * d) + d * d;
      assert b * d >= 0.0;
    }
  }

  lemma PositiveSquare(x: real)
    ensures x > 0.0 ==> x * x > 0.0
    ensures x == 0.0 ==> x * x == 0.0
  {
  }

  lemma Swap(x: real, s: real)
    ensures (x * s) * (x * s) == (x * x) * (s * s)
  {
    assert (x * s) * (x * s) == x * (s * x) * s;
  }

  lemma CrossDivide(x: real, r: real, y: real, s: real)
    requires r > 0.0 && s > 0.0
    requires x * s <= y * r
    ensures x / r <= y / s
  {
    var p, q, rs := x / r, y / s, r * s;
    assert x == p * r && y == q * s;
    assert rs > 0.0;
    assert x * s == p * rs && y * r == q * rs;
    Cancels(p, q, rs);
  }

  lemma Cancels(p: real, q: real, d: real)
    requires d > 0.0
    ensures p * d <= q * d <==> p <= q
  {
    assert (q - p) * d == q * d - p * d;
  }

  /** Clamped MCC lies in [0, 1]; it is 0 exactly when the matrix shows no positive association
      (every constant predictor is there), and 1 exactly when nothing is wrong and both classes
      are present. */
  lemma ClampedRange(root: real -> real, c: Tally)
    requires IsRoot(root)
    ensures 0.0 <= ClampedMcc(root, c) <= 1.0
    ensures ClampedMcc(root, c) == 0.0 <==> c.tp * c.tn <= c.fp * c.fn
    ensures c.tp + c.fp == 0 || c.tn + c.fn == 0 ==> ClampedMcc(root, c) == 0.0
    ensures ClampedMcc(root, c) == 1.0 <==> c.fp == 0 && c.fn == 0 && c.tp > 0 && c.tn > 0
  {
    ClampedSign(root, c);
    SlackZero(c);
    NonNegativeProduct(c.fp, c.fn);
    NonNegativeProduct(c.tp, c.tn);
    if Covariance(c) > 0 {
      SlackIdentity(c);
      SlackNonNegative(c);
      MarginsNonNegative(c);
      SquaresAsReals(Covariance(c), Slack(c));
      AgainstOne(Covariance(c) as real, root(Margins(c) as real));
    }
  }

  lemma SquaresAsReals(n: int, slack: int)
    requires slack >= 0
    ensures (n * n + slack) as real == n as real * n as real + slack as real
  {
  }

  lemma AgainstOne(n: real, d: real)
    requires n > 0.0 && d > 0.0
    ensures n * n <= d * d ==> n / d <= 1.0
    ensures n * n == d * d <==> n / d == 1.0
  {
    SquareGrows(n, d);
    SquareGrows(d, n);
    var q := n / d;
    assert n == q * d && 1.0 * d == d;
    Cancels(q, 1.0, d);
    Cancels(1.0, q, d);
  }

  // ----- fixing one verdict

  /** A malicious artifact passed as safe is now flagged. */
  function Caught(c: Tally): Tally
    requires c.fn > 0
  {
    Tally(c.tp + 1, c.tn, c.fp, c.fn - 1)
  }

  /** A safe artifact flagged is now passed. */
  function Cleared(c: Tally): Tally
    requires c.fp > 0
  {
    Tally(c.tp, c.tn + 1, c.fp - 1, c.fn)
  }

  /** The squared, cross-multiplied order behind the next lemma. `s` artifacts are flagged, `q`
      are not, `safe` are safe. */
  lemma OneMoreCaught(n: int, s: int, q: int, safe: int)
    requires n > 0 && q > 0 && safe >= 0 && s > 0
    requires n <= s * safe
    ensures (n * n) * ((s + 1) * (q - 1)) <= ((n + safe) * (n + safe)) * (s * q)
  {
    var more := n + safe;
    var x, y := n * (s + 1), more * s;
    assert 0 <= x <= y by {
      assert y == n * s + safe * s;
      NonNegativeProduct(n, s + 1);
    }
    Grows(n, more, x, y);
    NonNegativeProduct(n, x);
    Grows(q - 1, q, n * x, more * y);
    Rearrange(n, s + 1, q - 1);
    Rearrange(more, s, q);
  }

  lemma Rearrange(n: int, s: int, q: int)
    ensures (n * n) * (s * q) == q * (n * (n * s))
  {
    assert (n * n) * (s * q) == ((n * n) * s) * q;
    assert (n * n) * s == n * (n * s);
  }

  lemma Grows(a: int, b: int, x: int, y: int)
    requires 0 <= a <= b && 0 <= x <= y
    ensures a * x <= b * y
  {
    assert a * x <= a * y;
    assert a * y <= b * y;
  }

  lemma Times(k: int, x: int, y: int)
    requires k >= 0 && x <= y
    ensures k * x <= k * y
  {
  }

  lemma CaughtMargins(c: Tally)
    requires c.fn > 0
    ensures var classes := (c.tp + c.fn) * (c.tn + c.fp);
            var s, q := c.tp + c.fp, c.tn + c.fn;
            && Margins(c) == classes * (s * q)
            && Margins(Caught(c)) == classes * ((s + 1) * (q - 1))
            && Covariance(Caught(c)) == Covariance(c) + (c.tn + c.fp)
  {
    Regroup(c.tp + c.fp, c.tp + c.fn, c.tn + c.fp, c.tn + c.fn);
    Regroup(c.tp + 1 + c.fp, c.tp + c.fn, c.tn + c.fp, c.tn + c.fn - 1);
    assert (c.tp + 1) * c.tn == c.tp * c.tn + c.tn;
    assert c.fp * (c.fn - 1) == c.fp * c.fn - c.fp;
  }

  /** The covariance is at most the flagged count times the safe count. */
  lemma CovarianceBound(c: Tally)
    ensures Covariance(c) <= (c.tp + c.fp) * (c.tn + c.fp)
  {
    var safe := c.tn + c.fp;
    assert (c.tp + c.fp) * safe == c.tp * safe + c.fp * safe;
    assert c.tp * safe == c.tp * c.tn + c.tp * c.fp;
    NonNegativeProduct(c.tp, c.fp);
    NonNegativeProduct(c.fp, safe);
    NonNegativeProduct(c.fp, c.fn);
  }

  lemma CaughtCrossOrder(c: Tally)
    requires c.fn > 0 && Covariance(c) > 0
    ensures (Covariance(c) * Covariance(c)) * Margins(Caught(c))
            <= (Covariance(Caught(c)) * Covariance(Caught(c))) * Margins(c)
  {
    var n, s, q, safe := Covariance(c), c.tp + c.fp, c.tn + c.fn, c.tn + c.fp;
    var classes := (c.tp + c.fn) * safe;
    CaughtMargins(c);
    CovarianceBound(c);
    SlackZero(c);
    OneMoreCaught(n, s, q, safe);
    NonNegativeProduct(c.tp + c.fn, safe);
    Times(classes, (n * n) * ((s + 1) * (q - 1)), ((n + safe) * (n + safe)) * (s * q));
    Distributes(n * n, classes, (s + 1) * (q - 1));
    Distributes((n + safe) * (n + safe), classes, s * q);
  }

  lemma Distributes(x: int, k: int, y: int)
    ensures x * (k * y) == k * (x * y)
  {
  }

  /** Two matrices with positive covariance compare as their squared, cross-multiplied integers. */
  lemma OrderBySquares(root: real -> real, c: Tally, d: Tally)
    requires IsRoot(root)
    requires Covariance(c) > 0 && Covariance(d) > 0
    requires (Covariance(c) * Covariance(c)) * Margins(d) <= (Covariance(d) * Covariance(d)) * Margins(c)
    ensures ClampedMcc(root, c) <= ClampedMcc(root, d)
  {
    ClampedSign(root, c);
    ClampedSign(root, d);
    var x, y, r, s := Covariance(c) as real, Covariance(d) as real, root(Margins(c) as real), root(Margins(d) as real);
    CastSquares(Covariance(c), Margins(d));
    CastSquares(Covariance(d), Margins(c));
    assert (x * x) * (s * s) <= (y * y) * (r * r);
    QuotientOrder(x, r, y, s);
  }

  lemma CastSquares(n: int, m: int)
    ensures ((n * n) * m) as real == (n as real * n as real) * m as real
  {
  }

  /** Fixing a missed detection never lowers clamped MCC. */
  lemma CatchingNeverHurts(root: real -> real, c: Tally)
    requires IsRoot(root)
    requires c.fn > 0
    ensures ClampedMcc(root, c) <= ClampedMcc(root, Caught(c))
  {
    ClampedSign(root, c);
    ClampedSign(root, Caught(c));
    if Covariance(c) > 0 {
      CaughtMargins(c);
      CaughtCrossOrder(c);
      OrderBySquares(root, c, Caught(c));
    }
  }

  // ----- withholding one verdict

  /** A missed detection that is withheld instead. */
  function Unmissed(c: Tally): Tally
    requires c.fn > 0
  {
    c.(fn := c.fn - 1)
  }

  /** A false alarm that is withheld instead. */
  function Unalarmed(c: Tally): Tally
    requires c.fp > 0
  {
    c.(fp := c.fp - 1)
  }

  lemma UnmissedMargins(c: Tally)
    requires c.fn > 0
    ensures 0 <= Margins(Unmissed(c)) <= Margins(c)
    ensures Covariance(Unmissed(c)) == Covariance(c) + c.fp
  {
    var p, q, r, s := c.tp + c.fp, c.tp + c.fn, c.tn + c.fp, c.tn + c.fn;
    NonNegativeProduct(p, q - 1);
    Grows(p, p, q - 1, q);
    NonNegativeProduct(p * (q - 1), r);
    Grows(r, r, p * (q - 1), p * q);
    NonNegativeProduct(p * (q - 1) * r, s - 1);
    Grows(s - 1, s, p * (q - 1) * r, p * q * r);
    assert c.fp * (c.fn - 1) == c.fp * c.fn - c.fp;
  }

  lemma UnmissedCrossOrder(c: Tally)
    requires c.fn > 0 && Covariance(c) > 0
    ensures (Covariance(c) * Covariance(c)) * Margins(Unmissed(c))
            <= (Covariance(Unmissed(c)) * Covariance(Unmissed(c))) * Margins(c)
  {
    hide Margins, Covariance;
    var n, more := Covariance(c), Covariance(Unmissed(c));
    UnmissedMargins(c);
    NonNegativeProduct(n, n);
    Grows(n, more, n, more);
    Grows(n * n, more * more, Margins(Unmissed(c)), Margins(c));
  }

  /** Withholding a verdict that misses a malicious artifact never lowers clamped MCC. */
  lemma WithholdingAMissNeverHurts(root: real -> real, c: Tally)
    requires IsRoot(root)
    requires c.fn > 0
    ensures ClampedMcc(root, c) <= ClampedMcc(root, Unmissed(c))
  {
    hide Mcc, ClampedMcc, Margins;
    ClampedSign(root, c);
    ClampedSign(root, Unmissed(c));
    UnmissedMargins(c);
    if Covariance(c) > 0 {
      UnmissedCrossOrder(c);
      OrderBySquares(root, c, Unmissed(c));
    }
  }

  function Mirrored(c: Tally): Tally {
    Tally(c.tn, c.tp, c.fn, c.fp)
  }

  /** Renaming the two classes changes nothing. */
  lemma MirrorKeeps(root: real -> real, c: Tally)
    ensures ClampedMcc(root, Mirrored(c)) == ClampedMcc(root, c)
  {
    var p, q, r, s := c.tp + c.fp, c.tp + c.fn, c.tn + c.fp, c.tn + c.fn;
    assert s * r * q * p == p * q * r * s by {
      assert s * r * q * p == (s * p) * (r * q) by { Regroup(s, r, q, p); }
      Regroup(p, q, r, s);
    }
    assert Margins(Mirrored(c)) == Margins(c);
    assert Covariance(Mirrored(c)) == Covariance(c);
  }

  /** Fixing a false alarm never lowers clamped MCC. */
  lemma ClearingNeverHurts(root: real -> real, c: Tally)
    requires IsRoot(root)
    requires c.fp > 0
    ensures ClampedMcc(root, c) <= ClampedMcc(root, Cleared(c))
  {
    CatchingNeverHurts(root, Mirrored(c));
    assert Caught(Mirrored(c)) == Mirrored(Cleared(c));
    MirrorKeeps(root, c);
    MirrorKeeps(root, Cleared(c));
  }

  /** Withholding a false alarm never lowers clamped MCC. */
  lemma WithholdingAnAlarmNeverHurts(root: real -> real, c: Tally)
    requires IsRoot(root)
    requires c.fp > 0
    ensures ClampedMcc(root, c) <= ClampedMcc(root, Unalarmed(c))
  {
    WithholdingAMissNeverHurts(root, Mirrored(c));
    assert Unmissed(Mirrored(c)) == Mirrored(Unalarmed(c));
    MirrorKeeps(root, c);
    MirrorKeeps(root, Unalarmed(c));
  }

  /** The clamped value in numbers: nothing unless more is right than wrong, tp tn > fp fn, and otherwise the
      positive number whose square times the four margins is the square of that difference. */
  lemma ClampedExactly(root: real -> real, c: Tally)
    requires IsRoot(root)
    ensures var mcc, difference := ClampedMcc(root, c), (c.tp * c.tn - c.fp * c.fn) as real;
            var margins := ((c.tp + c.fp) * (c.tp + c.fn) * (c.tn + c.fp) * (c.tn + c.fn)) as real;
            if c.tp * c.tn <= c.fp * c.fn then mcc == 0.0
            else mcc > 0.0 && mcc * mcc * margins == difference * difference
  {
    ClampedSign(root, c);
    MarginsNonNegative(c);
    if Covariance(c) > 0 {
      SquareOfQuotient(Covariance(c) as real, root(Margins(c) as real), Margins(c) as real);
    }
  }

  lemma SquareOfQuotient(x: real, r: real, square: real)
    requires r > 0.0 && r * r == square
    ensures (x / r) * (x / r) * square == x * x
  {
    var q := x / r;
    assert q * r == x;
    assert q * q * (r * r) == (q * r) * (q * r);
  }
}
