/**
 * Cosine similarity between two embeddings, as used to rank stored documents.
 *
 * Dafny has no square root, so instead of cos = dot / (|a| |b|) the model
 * computes the signed square cos * |cos| = dot * |dot| / (|a|^2 |b|^2).
 * The map x -> x * |x| is strictly increasing (SignedSquareStrictlyIncreasing),
 * so ranking by this key orders documents exactly as ranking by the cosine does.
 */
module Similarity {

  /** Sum of pairwise products; like Python's `zip`, it stops at the shorter vector. */
  function Dot(a: seq<real>, b: seq<real>): real
  {
    if |a| == 0 || |b| == 0 then 0.0 else a[0] * b[0] + Dot(a[1..], b[1..])
  }

  /** Squared Euclidean norm, over the whole vector. */
  function SumSquares(a: seq<real>): real
  {
    if |a| == 0 then 0.0 else a[0] * a[0] + SumSquares(a[1..])
  }

  /** x * |x|: the square, carrying the sign of x. */
  function SignedSquare(x: real): real
  {
    if x < 0.0 then -(x * x) else x * x
  }

  /**
   * The ranking score of `a` against `b`: 0 when either vector has zero norm
   * (no division is performed), otherwise cos(a, b) * |cos(a, b)|.
   */
  function CosineKey(a: seq<real>, b: seq<real>): real
  {
    KeyOf(Dot(a, b), SumSquares(a), SumSquares(b))
  }

  /** The score from the dot product d and the squared norms na and nb. */
  function KeyOf(d: real, na: real, nb: real): real
  {
    if na == 0.0 || nb == 0.0 then 0.0 else SignedSquare(d) / (na * nb)
  }

  ghost predicate IsZeroVector(a: seq<real>)
  {
    forall i :: 0 <= i < |a| ==> a[i] == 0.0
  }

  lemma MulMonotone(c: real, x: real, y: real)
    requires c >= 0.0 && x <= y
    ensures c * x <= c * y
  {
  }

  lemma MulStrictMonotone(c: real, x: real, y: real)
    requires c > 0.0 && x < y
    ensures c * x < c * y
  {
  }

  lemma MulStrictMonotoneRight(c: real, x: real, y: real)
    requires c > 0.0 && x < y
    ensures x * c < y * c
  {
  }

  lemma MulStrictAntitone(c: real, x: real, y: real)
    requires c < 0.0 && x < y
    ensures c * x > c * y
  {
  }

  lemma MulStrictAntitoneRight(c: real, x: real, y: real)
    requires c < 0.0 && x < y
    ensures x * c > y * c
  {
  }

  /** A square is non-negative, and positive unless its base is zero. */
  lemma SquareSign(x: real)
    ensures x * x >= 0.0
    ensures x != 0.0 ==> x * x > 0.0
  {
    if x > 0.0 {
      MulStrictMonotone(x, 0.0, x);
    } else if x < 0.0 {
      MulStrictMonotone(-x, x, 0.0);
      assert (-x) * x == -(x * x);
    }
  }

  lemma {:induction false} SumSquaresNonNegative(a: seq<real>)
    ensures SumSquares(a) >= 0.0
  {
    if |a| > 0 {
      SumSquaresNonNegative(a[1..]);
      SquareSign(a[0]);
    }
  }

  lemma {:induction false} ZeroVectorHasZeroNorm(a: seq<real>)
    requires IsZeroVector(a)
    ensures SumSquares(a) == 0.0
  {
    if |a| > 0 {
      assert IsZeroVector(a[1..]) by {
        forall i | 0 <= i < |a| - 1 ensures a[1..][i] == 0.0 {
          assert a[1..][i] == a[i + 1];
        }
      }
      ZeroVectorHasZeroNorm(a[1..]);
    }
  }

  /** Similarity with an all-zero vector, on either side, is exactly 0. */
  lemma ZeroVectorScoresZero(a: seq<real>, b: seq<real>)
    requires IsZeroVector(a) || IsZeroVector(b)
    ensures CosineKey(a, b) == 0.0
  {
    if IsZeroVector(a) {
      ZeroVectorHasZeroNorm(a);
    } else {
      ZeroVectorHasZeroNorm(b);
    }
  }

  lemma {:induction false} DotSymmetric(a: seq<real>, b: seq<real>)
    ensures Dot(a, b) == Dot(b, a)
  {
    if |a| > 0 && |b| > 0 {
      DotSymmetric(a[1..], b[1..]);
    }
  }

  /** The score does not depend on which vector is the probe. */
  lemma CosineKeySymmetric(a: seq<real>, b: seq<real>)
    ensures CosineKey(a, b) == CosineKey(b, a)
  {
    DotSymmetric(a, b);
    assert SumSquares(a) * SumSquares(b) == SumSquares(b) * SumSquares(a);
  }

  /** x -> x * |x| is strictly increasing, so it preserves the order of cosines. */
  lemma SignedSquareStrictlyIncreasing(x: real, y: real)
    requires x < y
    ensures SignedSquare(x) < SignedSquare(y)
  {
    if 0.0 <= x {
      calc {
        SignedSquare(x);
        == x * x;
        <= { MulMonotone(x, x, y); }
        x * y;
        < { MulStrictMonotoneRight(y, x, y); }
        y * y;
        == SignedSquare(y);
      }
    } else if y < 0.0 {
      calc {
        SignedSquare(x);
        == -(x * x);
        < { MulStrictAntitone(x, x, y); }
        -(x * y);
        < { MulStrictAntitoneRight(y, x, y); }
        -(y * y);
        == SignedSquare(y);
      }
    } else {
      calc {
        SignedSquare(x);
        == -(x * x);
        < 0.0;
        <= y * y;
        == SignedSquare(y);
      }
    }
  }

  /**
   * With ra and rb the norms of a and b, the ranking score is the signed
   * square of the cosine dot / (ra * rb).
   */
  lemma CosineKeyIsSignedSquareOfCosine(a: seq<real>, b: seq<real>, ra: real, rb: real)
    requires ra > 0.0 && rb > 0.0
    requires ra * ra == SumSquares(a) && rb * rb == SumSquares(b)
    ensures CosineKey(a, b) == SignedSquare(Dot(a, b) / (ra * rb))
  {
    QuotientKey(Dot(a, b), SumSquares(a), SumSquares(b), ra, rb);
  }

  lemma MulPositive(x: real, y: real, z: real)
    requires x > 0.0 && y > 0.0 && z == x * y
    ensures z > 0.0
  {
  }

  lemma QuotientTimes(d: real, p: real)
    requires p > 0.0
    ensures (d / p) * p == d
  {
  }

  lemma DivideProduct(x: real, q: real)
    requires q > 0.0
    ensures (x * q) / q == x
  {
  }

  lemma SignedSquareScale(c: real, p: real)
    requires p > 0.0
    ensures SignedSquare(c * p) == SignedSquare(c) * (p * p)
  {
  }

  /** Dividing by p before taking the signed square divides the result by q = p * p. */
  lemma SignedSquareOfQuotient(d: real, p: real, q: real)
    requires p > 0.0 && q == p * p && q > 0.0
    ensures SignedSquare(d) / q == SignedSquare(d / p)
  {
    QuotientTimes(d, p);
    SignedSquareScale(d / p, p);
    DivideProduct(SignedSquare(d / p), q);
  }

  lemma NormProduct(ra: real, rb: real)
    ensures (ra * ra) * (rb * rb) == (ra * rb) * (ra * rb)
  {
  }

  /** The score's formula, given the squared norms na, nb and the norms ra, rb. */
  lemma QuotientKey(d: real, na: real, nb: real, ra: real, rb: real)
    requires ra > 0.0 && rb > 0.0 && na == ra * ra && nb == rb * rb
    ensures KeyOf(d, na, nb) == SignedSquare(d / (ra * rb))
  {
    MulPositive(ra, ra, na);
    MulPositive(rb, rb, nb);
    MulPositive(na, nb, na * nb);
    NormProduct(ra, rb);
    SignedSquareOfQuotient(d, ra * rb, na * nb);
  }

  /**
   * `_cosine_similarity` given the norms ra and rb it would take square
   * roots for: 0 when either is zero, otherwise dot / (ra * rb).
   */
  function Cosine(a: seq<real>, b: seq<real>, ra: real, rb: real): real
  {
    if ra == 0.0 || rb == 0.0 then 0.0 else Dot(a, b) / (ra * rb)
  }

  /** For all vectors, zero-norm ones included, the score is the signed square of the cosine. */
  lemma CosineKeyOfCosine(a: seq<real>, b: seq<real>, ra: real, rb: real)
    requires ra >= 0.0 && rb >= 0.0
    requires ra * ra == SumSquares(a) && rb * rb == SumSquares(b)
    ensures CosineKey(a, b) == SignedSquare(Cosine(a, b, ra, rb))
  {
    if ra > 0.0 && rb > 0.0 {
      CosineKeyIsSignedSquareOfCosine(a, b, ra, rb);
    }
  }

  /**
   * For all vectors, the score orders documents against a probe exactly as
   * the cosine does: a lower cosine iff a lower score, an equal cosine iff an
   * equal score.
   */
  lemma CosineOrderIsKeyOrder(a: seq<real>, b: seq<real>, p: seq<real>, ra: real, rb: real, rp: real)
    requires ra >= 0.0 && rb >= 0.0 && rp >= 0.0
    requires ra * ra == SumSquares(a) && rb * rb == SumSquares(b) && rp * rp == SumSquares(p)
    ensures Cosine(a, p, ra, rp) < Cosine(b, p, rb, rp) <==> CosineKey(a, p) < CosineKey(b, p)
    ensures Cosine(a, p, ra, rp) == Cosine(b, p, rb, rp) <==> CosineKey(a, p) == CosineKey(b, p)
  {
    var x, y := Cosine(a, p, ra, rp), Cosine(b, p, rb, rp);
    CosineKeyOfCosine(a, p, ra, rp);
    CosineKeyOfCosine(b, p, rb, rp);
    if x < y {
      SignedSquareStrictlyIncreasing(x, y);
    } else if y < x {
      SignedSquareStrictlyIncreasing(y, x);
    }
  }

  /** Dot product and norm of three-dimensional vectors, written out. */
  lemma Expand3(x0: real, x1: real, x2: real, y0: real, y1: real, y2: real)
    ensures Dot([x0, x1, x2], [y0, y1, y2]) == x0 * y0 + x1 * y1 + x2 * y2
    ensures SumSquares([x0, x1, x2]) == x0 * x0 + x1 * x1 + x2 * x2
  {
    assert [x0, x1, x2][1..] == [x1, x2];
    assert [y0, y1, y2][1..] == [y1, y2];
    assert [x1, x2][1..] == [x2];
    assert [y1, y2][1..] == [y2];
    assert [x2][1..] == [];
    assert [y2][1..] == [];
    calc {
      Dot([x0, x1, x2], [y0, y1, y2]);
      == x0 * y0 + Dot([x1, x2], [y1, y2]);
      == x0 * y0 + (x1 * y1 + Dot([x2], [y2]));
      == x0 * y0 + (x1 * y1 + (x2 * y2 + Dot([], [])));
      == x0 * y0 + x1 * y1 + x2 * y2;
    }
    calc {
      SumSquares([x0, x1, x2]);
      == x0 * x0 + SumSquares([x1, x2]);
      == x0 * x0 + (x1 * x1 + SumSquares([x2]));
      == x0 * x0 + (x1 * x1 + (x2 * x2 + SumSquares([])));
      == x0 * x0 + x1 * x1 + x2 * x2;
    }
  }
}
