/** Eight-bit quantisation of a linear classifier, in exact arithmetic, and the error it puts on a score. */
module Quantization {

  const QUANTIZATION_SCALE := 127.0

  function Abs(x: real): real {
    if x < 0.0 then -x else x
  }

  // Python's round: to the nearest integer, halves to even.
  function Round(x: real): int {
    var below := x.Floor;
    var part := x - below as real;
    if part < 0.5 then below
    else if part > 0.5 then below + 1
    else if below % 2 == 0 then below
    else below + 1
  }

  function Clamp(q: int): int {
    if q < -127 then -127 else if q > 127 then 127 else q
  }

  // q & 0xFF
  function ToByte(q: int): (b: int)
    ensures 0 <= b < 256
  {
    q % 256
  }

  function Signed(b: int): int {
    if b > 127 then b - 256 else b
  }

  /** Packing loses nothing of a signed byte. */
  lemma SignedInvertsToByte(q: int)
    ensures Signed(ToByte(q)) == q <==> -128 <= q <= 127
  {
  }

  // max(abs(value) for value in row), zero for an empty row.
  function Peak(row: seq<real>): (p: real)
    ensures p >= 0.0
    ensures forall i :: 0 <= i < |row| ==> Abs(row[i]) <= p
    ensures row != [] ==> exists i :: 0 <= i < |row| && Abs(row[i]) == p
  {
    if row == [] then 0.0
    else
      var rest := Peak(row[..|row| - 1]);
      var last := Abs(row[|row| - 1]);
      assert forall i :: 0 <= i < |row| - 1 ==> row[..|row| - 1][i] == row[i];
      if last > rest || |row| == 1 then last else rest
  }

  function Scale(row: seq<real>): (s: real)
    ensures s >= 0.0
    ensures s == 0.0 <==> Peak(row) == 0.0
  {
    Peak(row) / QUANTIZATION_SCALE
  }

  function Quantized(value: real, scale: real): int {
    if scale == 0.0 then 0 else ToByte(Clamp(Round(value / scale)))
  }

  function PackedRow(row: seq<real>): (bytes: seq<int>)
    ensures |bytes| == |row|
  {
    seq(|row|, i requires 0 <= i < |row| => Quantized(row[i], Scale(row)))
  }

  function Packed(rows: seq<seq<real>>): seq<int> {
    if rows == [] then [] else Packed(rows[..|rows| - 1]) + PackedRow(rows[|rows| - 1])
  }

  /** quantize_rows: one scale per row and the rows' bytes end to end. */
  method QuantizeRows(rows: seq<seq<real>>) returns (packed: seq<int>, scales: seq<real>)
    ensures packed == Packed(rows)
    ensures |scales| == |rows| && forall c :: 0 <= c < |rows| ==> scales[c] == Scale(rows[c])
  {
    packed, scales := [], [];
    for c := 0 to |rows|
      invariant packed == Packed(rows[..c])
      invariant |scales| == c && forall k :: 0 <= k < c ==> scales[k] == Scale(rows[k])
    {
      var row := rows[c];
      var bytes := QuantizeRow(row);
      assert rows[..c + 1][..c] == rows[..c];
      packed := packed + bytes;
      scales := scales + [Scale(row)];
    }
    assert rows[..|rows|] == rows;
  }

  method FindPeak(row: seq<real>) returns (peak: real)
    ensures peak == Peak(row)
  {
    peak := 0.0;
    for i := 0 to |row|
      invariant peak == Peak(row[..i])
    {
      assert row[..i + 1][..i] == row[..i];
      peak := if Abs(row[i]) > peak || i == 0 then Abs(row[i]) else peak;
    }
    assert row[..|row|] == row;
  }

  method QuantizeRow(row: seq<real>) returns (bytes: seq<int>)
    ensures bytes == PackedRow(row)
  {
    var peak := FindPeak(row);
    if peak == 0.0 {
      return seq(|row|, _ => 0);
    }
    var scale := Scale(row);
    bytes := [];
    for i := 0 to |row|
      invariant |bytes| == i && forall k :: 0 <= k < i ==> bytes[k] == Quantized(row[k], scale)
    {
      bytes := bytes + [ToByte(Clamp(Round(row[i] / scale)))];
    }
  }

  // ----- The error of one coefficient -----

  lemma RoundIsNear(x: real)
    ensures Abs(Round(x) as real - x) <= 0.5
  {
  }

  /** Rounding goes to the nearest integer, and between two of them to the even one. */
  lemma RoundsHalvesToEven(x: real, n: int)
    ensures Round(x) == n <==>
              || n as real - 0.5 < x < n as real + 0.5
              || (n % 2 == 0 && (x == n as real - 0.5 || x == n as real + 0.5))
  {
  }

  lemma RoundStaysWithin(x: real, n: nat)
    requires Abs(x) <= n as real
    ensures -(n as int) <= Round(x) <= n
  {
    RoundIsNear(x);
  }

  lemma Cancel(a: real, b: real, c: real)
    requires c > 0.0 && a * c <= b * c
    ensures a <= b
  {
  }

  lemma QuotientWithin(value: real, peak: real)
    requires peak > 0.0 && Abs(value) <= peak
    ensures Abs(value / (peak / QUANTIZATION_SCALE)) <= 127.0
  {
    var scale := peak / QUANTIZATION_SCALE;
    var q := value / scale;
    assert q * scale == value && 127.0 * scale == peak;
    Cancel(q, 127.0, scale);
    Cancel(-127.0, q, scale);
  }

  /** In exact arithmetic the clamp never bites. */
  lemma ClampNeverBites(row: seq<real>, i: nat)
    requires i < |row| && Scale(row) != 0.0
    ensures Clamp(Round(row[i] / Scale(row))) == Round(row[i] / Scale(row))
  {
    QuotientWithin(row[i], Peak(row));
    RoundStaysWithin(row[i] / Scale(row), 127);
  }

  // |e| <= half and w >= 0 bound |e * w|.
  lemma ProductBound(e: real, half: real, w: real)
    requires Abs(e) <= half && w >= 0.0
    ensures Abs(e * w) <= half * w
  {
    assert 0.0 <= (half - e) * w == half * w - e * w;
    assert 0.0 <= (half + e) * w == half * w + e * w;
  }

  lemma Rescaled(value: real, scale: real, q: real)
    requires scale > 0.0 && Abs(q - value / scale) <= 0.5
    ensures Abs(q * scale - value) <= scale / 2.0
  {
    var x := value / scale;
    assert x * scale == value;
    ProductBound(q - x, 0.5, scale);
    assert (q - x) * scale == q * scale - x * scale;
  }

  lemma RoundedByte(value: real, scale: real)
    requires scale > 0.0 && Abs(value / scale) <= 127.0
    ensures Abs(Signed(Quantized(value, scale)) as real * scale - value) <= scale / 2.0
  {
    var q := Round(value / scale);
    RoundStaysWithin(value / scale, 127);
    SignedInvertsToByte(q);
    RoundIsNear(value / scale);
    Rescaled(value, scale, q as real);
  }

  // A byte read back as its signed value times the scale is off by at most half the scale.
  predicate ByteNear(byte: int, scale: real, value: real) {
    Abs(Signed(byte) as real * scale - value) <= scale / 2.0
  }

  lemma ByteError(value: real, peak: real, scale: real, byte: int)
    requires peak >= 0.0 && Abs(value) <= peak && scale == peak / QUANTIZATION_SCALE && byte == Quantized(value, scale)
    ensures ByteNear(byte, scale, value)
  {
    if peak > 0.0 {
      QuotientWithin(value, peak);
      RoundedByte(value, scale);
    }
  }

  /** Each coefficient read back is off by at most half of its row's scale. */
  lemma CoefficientError(row: seq<real>, i: nat)
    requires i < |row|
    ensures ByteNear(PackedRow(row)[i], Scale(row), row[i])
  {
    ByteError(row[i], Peak(row), Scale(row), PackedRow(row)[i]);
  }

  /** The largest coefficient of a row, whatever its sign, packs to the end of the signed range. */
  lemma PeakPacksToTheEnd(row: seq<real>, i: nat)
    requires i < |row| && Abs(row[i]) == Peak(row) > 0.0
    ensures Signed(PackedRow(row)[i]) == if row[i] > 0.0 then 127 else -127
  {
    var scale := Scale(row);
    PeakOverScale(row[i], scale);
    assert Round(127.0) == 127 && Round(-127.0) == -127;
    SignedInvertsToByte(127);
    SignedInvertsToByte(-127);
  }

  lemma PeakOverScale(value: real, scale: real)
    requires scale > 0.0 && Abs(value) == 127.0 * scale
    ensures value / scale == if value > 0.0 then 127.0 else -127.0
  {
    var q := value / scale;
    assert q * scale == value;
    if value > 0.0 {
      Cancel(q, 127.0, scale);
      Cancel(127.0, q, scale);
    } else {
      Cancel(q, -127.0, scale);
      Cancel(-127.0, q, scale);
    }
  }

  predicate RowNear(bytes: seq<int>, scale: real, row: seq<real>) {
    |bytes| == |row| && forall i :: 0 <= i < |row| ==> ByteNear(bytes[i], scale, row[i])
  }

  // ----- Scoring -----

  // A matched term: its column and its weight (1 + log count) * idf.
  datatype Term = Term(position: nat, weight: real)

  function Sum(f: nat -> real, n: nat): real {
    if n == 0 then 0.0 else Sum(f, n - 1) + f(n - 1)
  }

  predicate InRange(terms: seq<Term>, dimensions: nat) {
    forall t :: 0 <= t < |terms| ==> terms[t].position < dimensions
  }

  // A term's share of a row's decision value.
  function Share(row: seq<real>, terms: seq<Term>): nat -> real
    requires InRange(terms, |row|)
  {
    (t: nat) => if t < |terms| then row[terms[t].position] * terms[t].weight else 0.0
  }

  function AbsWeight(terms: seq<Term>): nat -> real {
    (t: nat) => if t < |terms| then Abs(terms[t].weight) else 0.0
  }

  function Square(terms: seq<Term>): nat -> real {
    (t: nat) => if t < |terms| then terms[t].weight * terms[t].weight else 0.0
  }

  // The sum of a row's coefficients times the term weights.
  function Dot(row: seq<real>, terms: seq<Term>): real
    requires InRange(terms, |row|)
  {
    Sum(Share(row, terms), |terms|)
  }

  // The sum of the absolute term weights.
  function TotalWeight(terms: seq<Term>): real {
    Sum(AbsWeight(terms), |terms|)
  }

  // math.sqrt(square) or 1.0
  function Norm(root: real -> real, terms: seq<Term>): real {
    var r := root(Sum(Square(terms), |terms|));
    if r == 0.0 then 1.0 else r
  }

  // A row of bytes as the numbers they stand for.
  function SignedRow(bytes: seq<int>): (row: seq<real>)
    ensures |row| == |bytes|
  {
    seq(|bytes|, i requires 0 <= i < |bytes| => Signed(bytes[i]) as real)
  }

  datatype Model = Model(dimensions: nat, coefficients: seq<int>, scales: seq<real>, intercepts: seq<real>)

  predicate WellShaped(m: Model, classes: nat) {
    |m.scales| == |m.intercepts| == classes && |m.coefficients| == classes * m.dimensions
  }

  lemma {:induction false} RowInside(classes: nat, dimensions: nat, c: nat)
    requires c < classes
    ensures c * dimensions + dimensions <= classes * dimensions
  {
    if c + 1 < classes {
      RowInside(classes - 1, dimensions, c);
    }
  }

  function Row(m: Model, classes: nat, c: nat): (bytes: seq<int>)
    requires WellShaped(m, classes) && c < classes
    ensures |bytes| == m.dimensions
  {
    RowInside(classes, m.dimensions, c);
    Stretch(m.coefficients, c * m.dimensions, m.dimensions)
  }

  function Stretch(bytes: seq<int>, at: nat, n: nat): (r: seq<int>)
    requires at + n <= |bytes|
    ensures |r| == n
  {
    bytes[at..at + n]
  }

  // The score of one class from its signed bytes, and from the coefficients themselves.
  function ClassScore(bytes: seq<real>, scale: real, intercept: real, terms: seq<Term>, norm: real): real
    requires InRange(terms, |bytes|) && norm != 0.0
  {
    if terms == [] || scale == 0.0 then intercept else intercept + Dot(bytes, terms) * scale / norm
  }

  function ExactScore(row: seq<real>, intercept: real, terms: seq<Term>, norm: real): real
    requires InRange(terms, |row|) && norm != 0.0
  {
    intercept + Dot(row, terms) / norm
  }

  function Score(m: Model, classes: nat, terms: seq<Term>, norm: real, c: nat): real
    requires WellShaped(m, classes) && c < classes && norm != 0.0 && InRange(terms, m.dimensions)
  {
    ClassScore(SignedRow(Row(m, classes, c)), m.scales[c], m.intercepts[c], terms, norm)
  }

  // One class: the bytes at base plus each term's position.
  method ClassTotal(coefficients: seq<int>, base: nat, dimensions: nat, terms: seq<Term>) returns (total: real)
    requires base + dimensions <= |coefficients| && InRange(terms, dimensions)
    ensures total == Dot(SignedRow(coefficients[base..base + dimensions]), terms)
  {
    total := 0.0;
    for t := 0 to |terms|
      invariant total == Sum(Share(SignedRow(coefficients[base..base + dimensions]), terms), t)
    {
      total := total + Signed(coefficients[base + terms[t].position]) as real * terms[t].weight;
    }
  }

  method FindNorm(terms: seq<Term>, root: real -> real) returns (norm: real)
    ensures norm == Norm(root, terms)
  {
    var square := 0.0;
    for t := 0 to |terms|
      invariant square == Sum(Square(terms), t)
    {
      square := square + terms[t].weight * terms[t].weight;
    }
    return if root(square) == 0.0 then 1.0 else root(square);
  }

  /** decision_scores, once the text is turned into terms. */
  method DecisionScores(m: Model, classes: nat, terms: seq<Term>, root: real -> real)
    returns (scores: seq<real>, matched: nat)
    requires WellShaped(m, classes)
    requires InRange(terms, m.dimensions)
    ensures |scores| == classes && matched == |terms|
    ensures forall c :: 0 <= c < classes ==> scores[c] == Score(m, classes, terms, Norm(root, terms), c)
  {
    if terms == [] {
      return m.intercepts, 0;
    }
    var norm := FindNorm(terms, root);
    scores := m.intercepts;
    for c := 0 to classes
      invariant |scores| == classes
      invariant forall k :: 0 <= k < c ==> scores[k] == Score(m, classes, terms, norm, k)
      invariant forall k :: c <= k < classes ==> scores[k] == m.intercepts[k]
    {
      var scale := m.scales[c];
      if scale != 0.0 {
        RowInside(classes, m.dimensions, c);
        var total := ClassTotal(m.coefficients, c * m.dimensions, m.dimensions, terms);
        scores := scores[c := scores[c] + total * scale / norm];
      }
    }
    matched := |terms|;
  }

  // ----- The error of a score -----

  predicate Rectangular(rows: seq<seq<real>>, dimensions: nat) {
    forall c :: 0 <= c < |rows| ==> |rows[c]| == dimensions
  }

  // The bytes of a row stand after those of the rows before it.
  lemma {:induction false} PackedRowAfter(rows: seq<seq<real>>, c: nat, at: nat)
    requires c < |rows| && at == |Packed(rows[..c])|
    ensures at + |rows[c]| <= |Packed(rows)| && Packed(rows)[at..at + |rows[c]|] == PackedRow(rows[c])
  {
    var n := |rows| - 1;
    var before, last := Packed(rows[..n]), PackedRow(rows[n]);
    assert Packed(rows) == before + last;
    if c < n {
      assert rows[..n][..c] == rows[..c];
      PackedRowAfter(rows[..n], c, at);
      var end := at + |rows[c]|;
      assert (before + last)[at..end] == before[at..end];
    }
  }

  lemma PackedRowAt(rows: seq<seq<real>>, dimensions: nat, c: nat)
    requires Rectangular(rows, dimensions) && c < |rows|
    ensures |Packed(rows)| == |rows| * dimensions && c * dimensions + dimensions <= |rows| * dimensions
    ensures Packed(rows)[c * dimensions..c * dimensions + dimensions] == PackedRow(rows[c])
  {
    PackedLength(rows, dimensions);
    PackedLength(rows[..c], dimensions);
    PackedRowAfter(rows, c, |Packed(rows[..c])|);
  }

  lemma {:induction false} PackedLength(rows: seq<seq<real>>, dimensions: nat)
    requires Rectangular(rows, dimensions)
    ensures |Packed(rows)| == |rows| * dimensions
  {
    if rows != [] {
      PackedLength(rows[..|rows| - 1], dimensions);
      assert |rows| * dimensions == (|rows| - 1) * dimensions + dimensions;
    }
  }

  // a scaled is off b by at most c halves.
  predicate Close(a: real, scale: real, b: real, c: real, half: real) {
    Abs(a * scale - b) <= c * half
  }

  lemma CloseAdds(a: real, b: real, c: real, x: real, y: real, z: real, scale: real, half: real)
    requires Close(a, scale, b, c, half) && Close(x, scale, y, z, half)
    ensures Close(a + x, scale, b + y, c + z, half)
  {
    assert (a + x) * scale == a * scale + x * scale;
    assert (c + z) * half == c * half + z * half;
  }

  lemma TermError(p: real, value: real, w: real, scale: real, half: real, share: real, exact: real, size: real)
    requires Abs(p * scale - value) <= half
    requires share == p * w && exact == value * w && size == Abs(w)
    ensures Close(share, scale, exact, size, half)
  {
    Regrouped(p, scale, value, w);
    SignedProductBound(p * scale - value, half, w);
  }

  lemma Regrouped(p: real, scale: real, value: real, w: real)
    ensures p * w * scale - value * w == (p * scale - value) * w
  {
    assert p * scale * w == p * w * scale;
  }

  lemma SignedProductBound(e: real, half: real, w: real)
    requires Abs(e) <= half
    ensures Abs(e * w) <= Abs(w) * half
  {
    ProductBound(e, half, Abs(w));
    assert w < 0.0 ==> e * w == -(e * -w);
  }

  predicate ShareNear(f: nat -> real, g: nat -> real, e: nat -> real, scale: real, half: real, t: nat) {
    Close(f(t), scale, g(t), e(t), half)
  }

  // A term's share moves by at most half a scale times its absolute weight.
  lemma ShareError(bytes: seq<int>, scale: real, row: seq<real>, terms: seq<Term>, half: real, t: nat)
    requires |bytes| == |row| && InRange(terms, |row|) && t < |terms| && half == scale / 2.0
    requires ByteNear(bytes[terms[t].position], scale, row[terms[t].position])
    ensures ShareNear(Share(SignedRow(bytes), terms), Share(row, terms), AbsWeight(terms), scale, half, t)
  {
    var f, g, e := Share(SignedRow(bytes), terms), Share(row, terms), AbsWeight(terms);
    TermError(Signed(bytes[terms[t].position]) as real, row[terms[t].position], terms[t].weight, scale, half,
        f(t), g(t), e(t));
  }

  lemma {:induction false} SumError(f: nat -> real, g: nat -> real, e: nat -> real, scale: real, half: real, n: nat)
    requires forall t :: 0 <= t < n ==> ShareNear(f, g, e, scale, half, t)
    ensures Close(Sum(f, n), scale, Sum(g, n), Sum(e, n), half)
  {
    if n > 0 {
      SumError(f, g, e, scale, half, n - 1);
      assert ShareNear(f, g, e, scale, half, n - 1);
      CloseAdds(Sum(f, n - 1), Sum(g, n - 1), Sum(e, n - 1), f(n - 1), g(n - 1), e(n - 1), scale, half);
    }
  }

  /** Coefficients off by at most half a scale move a dot product by at most half the total absolute weight. */
  lemma DotError(bytes: seq<int>, scale: real, row: seq<real>, terms: seq<Term>, half: real)
    requires RowNear(bytes, scale, row) && InRange(terms, |row|) && half == scale / 2.0
    ensures Close(Dot(SignedRow(bytes), terms), scale, Dot(row, terms), TotalWeight(terms), half)
  {
    var f, g, e := Share(SignedRow(bytes), terms), Share(row, terms), AbsWeight(terms);
    forall t | 0 <= t < |terms| ensures ShareNear(f, g, e, scale, half, t) {
      ShareError(bytes, scale, row, terms, half, t);
    }
    SumError(f, g, e, scale, half, |terms|);
  }

  lemma DividedError(a: real, b: real, bound: real, norm: real)
    requires norm > 0.0 && Abs(a - b) <= bound
    ensures Abs(a / norm - b / norm) <= bound / norm
  {
    QuotientOfDifference(a, b, norm);
    QuotientsOrdered(a - b, bound, norm);
    QuotientsOrdered(b - a, bound, norm);
    QuotientOfDifference(b, a, norm);
  }

  lemma QuotientOfDifference(a: real, b: real, norm: real)
    requires norm > 0.0
    ensures (a - b) / norm == a / norm - b / norm
  {
    var q := a / norm - b / norm;
    assert q * norm == a / norm * norm - b / norm * norm == a - b;
  }

  lemma QuotientsOrdered(a: real, b: real, norm: real)
    requires norm > 0.0 && a <= b
    ensures a / norm <= b / norm
  {
  }

  // The guarantee: half the scale times the total weight, over the norm.
  predicate WithinBound(score: real, exact: real, weight: real, scale: real, norm: real)
    requires norm != 0.0
  {
    Abs(score - exact) <= weight * (scale / 2.0) / norm
  }

  lemma ClassError(bytes: seq<int>, scale: real, row: seq<real>, intercept: real, terms: seq<Term>, norm: real)
    requires RowNear(bytes, scale, row) && InRange(terms, |row|) && norm > 0.0
    ensures WithinBound(ClassScore(SignedRow(bytes), scale, intercept, terms, norm),
            ExactScore(row, intercept, terms, norm),
                        TotalWeight(terms), scale, norm)
  {
    DotError(bytes, scale, row, terms, scale / 2.0);
    DividedError(Dot(SignedRow(bytes), terms) * scale, Dot(row, terms), TotalWeight(terms) * (scale / 2.0), norm);
  }

  /**
   The score computed from packed bytes differs from the score of the original coefficients by at most half
   the row's scale times the sum of the absolute term weights over their norm.
   */
  lemma ScoreError(rows: seq<seq<real>>, m: Model, terms: seq<Term>, norm: real, c: nat)
    requires Rectangular(rows, m.dimensions) && WellShaped(m, |rows|) && InRange(terms, m.dimensions) && c < |rows|
             && norm > 0.0
    requires m.coefficients == Packed(rows) && m.scales[c] == Scale(rows[c])
    ensures WithinBound(Score(m, |rows|, terms, norm, c), ExactScore(rows[c], m.intercepts[c], terms, norm),
                        TotalWeight(terms), m.scales[c], norm)
  {
    var row := rows[c];
    ReadsPackedRow(rows, m, c);
    forall i | 0 <= i < |row| ensures ByteNear(PackedRow(row)[i], m.scales[c], row[i]) {
      CoefficientError(row, i);
    }
    ClassError(PackedRow(row), m.scales[c], row, m.intercepts[c], terms, norm);
  }

  lemma ReadsPackedRow(rows: seq<seq<real>>, m: Model, c: nat)
    requires Rectangular(rows, m.dimensions) && WellShaped(m, |rows|) && c < |rows| && m.coefficients == Packed(rows)
    ensures Row(m, |rows|, c) == PackedRow(rows[c])
  {
    var at := |Packed(rows[..c])|;
    PackedLength(rows[..c], m.dimensions);
    PackedRowAfter(rows, c, at);
    assert Row(m, |rows|, c) == Stretch(m.coefficients, at, m.dimensions);
  }

  // ----- The divisor -----

  // The square root, on what it is asked of.
  ghost predicate IsRoot(root: real -> real) {
    forall x: real :: x >= 0.0 ==> root(x) >= 0.0 && root(x) * root(x) == x
  }

  predicate AllZero(terms: seq<Term>) {
    forall t :: 0 <= t < |terms| ==> terms[t].weight == 0.0
  }

  // The squared length of a vector with these components, one component at a time.
  function SquaredLength(terms: seq<Term>): real {
    if terms == [] then 0.0
    else SquaredLength(terms[..|terms| - 1]) + terms[|terms| - 1].weight * terms[|terms| - 1].weight
  }

  lemma {:induction false} SquaresSum(terms: seq<Term>, n: nat)
    requires n <= |terms|
    ensures Sum(Square(terms), n) == SquaredLength(terms[..n])
  {
    if n > 0 {
      SquaresSum(terms, n - 1);
      assert terms[..n][..n - 1] == terms[..n - 1];
    }
  }

  lemma SquareIsPositive(w: real)
    ensures w * w >= 0.0
    ensures w * w == 0.0 <==> w == 0.0
  {
    SquareIsNoLess(w);
    OnlyZeroSquare(w);
    NoSquare(w);
  }

  lemma SquareIsNoLess(w: real)
    ensures w * w >= 0.0
  {
    if w > 0.0 {
      PositiveProduct(w, w);
    } else if w < 0.0 {
      NegativeProduct(w, w);
    }
  }

  lemma OnlyZeroSquare(w: real)
    ensures w * w == 0.0 ==> w == 0.0
  {
    if w * w == 0.0 {
      if w > 0.0 {
        Zero(w, w);
      }
      if w < 0.0 {
        ZeroBelow(w, w);
      }
    }
  }

  lemma NoSquare(w: real)
    ensures w == 0.0 ==> w * w == 0.0
  {
  }

  lemma ZeroBelow(a: real, b: real)
    requires b < 0.0 && a * b == 0.0
    ensures a == 0.0
  {
  }

  lemma NegativeProduct(a: real, b: real)
    requires a < 0.0 && b < 0.0
    ensures a * b > 0.0
  {
  }

  lemma PositiveProduct(a: real, b: real)
    requires a > 0.0 && b > 0.0
    ensures a * b > 0.0
  {
  }

  lemma {:induction false} LengthIsPositive(terms: seq<Term>)
    ensures SquaredLength(terms) >= 0.0
    ensures SquaredLength(terms) == 0.0 <==> AllZero(terms)
  {
    if terms != [] {
      var most, last := terms[..|terms| - 1], terms[|terms| - 1];
      LengthIsPositive(most);
      SquareIsPositive(last.weight);
      assert forall t :: 0 <= t < |most| ==> most[t] == terms[t];
      assert AllZero(terms) ==> AllZero(most) && last.weight == 0.0;
      assert AllZero(most) && last.weight == 0.0 ==> AllZero(terms);
    }
  }

  /** The divisor is the length of the weight vector, and one when there is no length to divide by. */
  lemma NormIsLength(root: real -> real, terms: seq<Term>)
    requires IsRoot(root)
    ensures Norm(root, terms) > 0.0
    ensures AllZero(terms) ==> Norm(root, terms) == 1.0
    ensures !AllZero(terms) ==> Norm(root, terms) * Norm(root, terms) == SquaredLength(terms)
  {
    SquaresSum(terms, |terms|);
    assert terms[..|terms|] == terms;
    LengthIsPositive(terms);
    var r := root(SquaredLength(terms));
    assert r * r == SquaredLength(terms) && r >= 0.0;
    SquareIsPositive(r);
  }

  lemma EqualSquares(a: real, b: real)
    requires a > 0.0 && b > 0.0 && a * a == b * b
    ensures a == b
  {
    assert (a - b) * (a + b) == 0.0;
    Zero(a - b, a + b);
  }

  lemma Zero(a: real, b: real)
    requires b > 0.0 && a * b == 0.0
    ensures a == 0.0
  {
  }

  // This number is the length of the weight vector, or one if there is none.
  predicate IsDivisor(terms: seq<Term>, length: real) {
    length > 0.0 && if AllZero(terms) then length == 1.0 else length * length == SquaredLength(terms)
  }

  lemma NormIs(root: real -> real, terms: seq<Term>, length: real)
    requires IsRoot(root) && IsDivisor(terms, length)
    ensures Norm(root, terms) == length
  {
    NormIsLength(root, terms);
    if !AllZero(terms) {
      EqualSquares(Norm(root, terms), length);
    }
  }

  /**
   A score as decision_scores computes it, against the score of the original coefficients over the length of the weight
   vector, whatever number has that length.
   */
  lemma DecisionScoreError(rows: seq<seq<real>>, m: Model, terms: seq<Term>, root: real -> real, length: real, c: nat)
    requires IsRoot(root) && IsDivisor(terms, length)
    requires Rectangular(rows, m.dimensions) && WellShaped(m, |rows|) && InRange(terms, m.dimensions) && c < |rows|
    requires m.coefficients == Packed(rows) && m.scales[c] == Scale(rows[c])
    ensures Norm(root, terms) == length
    ensures WithinBound(Score(m, |rows|, terms, Norm(root, terms), c),
                        ExactScore(rows[c], m.intercepts[c], terms, length),
                        TotalWeight(terms), m.scales[c], length)
  {
    NormIs(root, terms, length);
    ScoreError(rows, m, terms, Norm(root, terms), c);
  }

  // ----- The error in terms of the number of terms alone -----

  // (t + a)^2 <= (n + 1)(s + a^2) when t^2 <= n s.
  lemma CauchyStep(n: nat, t: real, s: real, a: real)
    requires t * t <= n as real * s && s >= 0.0
    ensures (t + a) * (t + a) <= (n + 1) as real * (s + a * a)
  {
    var k := n as real;
    SquareIsPositive(t - k * a);
    if n == 0 {
      SquareIsPositive(t);
      assert t == 0.0;
    } else {
      CrossTerm(k, t, s, a);
    }
    assert (t + a) * (t + a) == t * t + 2.0 * (t * a) + a * a;
    assert (k + 1.0) * (s + a * a) == k * s + s + k * (a * a) + a * a;
  }

  lemma CrossTerm(k: real, t: real, s: real, a: real)
    requires k > 0.0 && t * t <= k * s && (t - k * a) * (t - k * a) >= 0.0
    ensures 2.0 * (t * a) <= s + k * (a * a)
  {
    SquareOfDifference(t, k * a);
    Reordered(t, k, a);
    var p, q := t * a, a * a;
    assert 2.0 * p * k <= k * s + k * q * k;
    assert (s + k * q) * k == k * s + k * q * k;
    Cancel(2.0 * p, s + k * q, k);
  }

  lemma SquareOfDifference(x: real, y: real)
    ensures (x - y) * (x - y) == x * x - 2.0 * (x * y) + y * y
  {
  }

  lemma Reordered(t: real, k: real, a: real)
    ensures t * (k * a) == t * a * k && (k * a) * (k * a) == k * (a * a) * k
  {
  }

  lemma {:induction false} CauchySchwarz(terms: seq<Term>, n: nat)
    requires n <= |terms|
    ensures Sum(AbsWeight(terms), n) >= 0.0 && Sum(Square(terms), n) >= 0.0
    ensures Sum(AbsWeight(terms), n) * Sum(AbsWeight(terms), n) <= n as real * Sum(Square(terms), n)
  {
    if n > 0 {
      CauchySchwarz(terms, n - 1);
      var w := terms[n - 1].weight;
      SquareIsPositive(w);
      CauchyStep(n - 1, Sum(AbsWeight(terms), n - 1), Sum(Square(terms), n - 1), Abs(w));
      assert Abs(w) * Abs(w) == w * w;
    }
  }

  lemma SquaresOrdered(a: real, b: real)
    requires a >= 0.0 && b >= 0.0 && a * a <= b * b
    ensures a <= b
  {
    if a + b > 0.0 {
      assert a * a - b * b == (a - b) * (a + b);
      Cancel(a, b, a + b);
    }
  }

  // This number is the square root of the number of terms.
  predicate IsRootOfCount(terms: seq<Term>, k: real) {
    k >= 0.0 && k * k == |terms| as real
  }

  // The total absolute weight is at most the length times the root of the number of terms.
  lemma WeightWithinRoot(terms: seq<Term>, norm: real, k: real)
    requires IsDivisor(terms, norm) && IsRootOfCount(terms, k)
    ensures TotalWeight(terms) <= k * norm
  {
    CauchySchwarz(terms, |terms|);
    SquaresSum(terms, |terms|);
    assert terms[..|terms|] == terms;
    LengthIsPositive(terms);
    var total := TotalWeight(terms);
    ProductOfRoots(k, norm, |terms| as real, norm * norm);
    if AllZero(terms) {
      SquareIsPositive(total);
      assert total * total <= 0.0;
    } else {
      SquaresOrdered(total, k * norm);
    }
  }

  lemma ProductOfRoots(a: real, b: real, x: real, y: real)
    requires a >= 0.0 && b >= 0.0 && a * a == x && b * b == y
    ensures a * b >= 0.0 && (a * b) * (a * b) == x * y
  {
    assert (a * b) * (a * b) == (a * a) * (b * b);
  }

  lemma BoundOverNorm(total: real, half: real, norm: real, k: real)
    requires norm > 0.0 && half >= 0.0 && total <= k * norm
    ensures total * half / norm <= k * half
  {
    assert total * half <= k * norm * half by {
      assert (k * norm - total) * half >= 0.0;
    }
    var q := total * half / norm;
    assert q * norm == total * half;
    assert k * half * norm == k * norm * half;
    Cancel(q, k * half, norm);
  }

  // Half the scale times this factor.
  predicate WithinHalves(score: real, exact: real, k: real, scale: real) {
    Abs(score - exact) <= k * (scale / 2.0)
  }

  lemma BoundByRoot(score: real, exact: real, total: real, scale: real, norm: real, k: real)
    requires norm > 0.0 && scale >= 0.0 && total <= k * norm && WithinBound(score, exact, total, scale, norm)
    ensures WithinHalves(score, exact, k, scale)
  {
    BoundOverNorm(total, scale / 2.0, norm, k);
  }

  /**
   Whatever the weights are, quantisation moves a score by at most half the row's scale times the square root of the
   number of matched terms.
   */
  lemma ScoreErrorByTerms(rows: seq<seq<real>>, m: Model, terms: seq<Term>, norm: real, k: real, c: nat)
    requires IsDivisor(terms, norm) && IsRootOfCount(terms, k)
    requires Rectangular(rows, m.dimensions) && WellShaped(m, |rows|) && InRange(terms, m.dimensions) && c < |rows|
    requires m.coefficients == Packed(rows) && m.scales[c] == Scale(rows[c])
    ensures WithinHalves(Score(m, |rows|, terms, norm, c), ExactScore(rows[c], m.intercepts[c], terms, norm), k,
                         m.scales[c])
  {
    WeightWithinRoot(terms, norm, k);
    ScoreErrorWithin(rows, m, terms, norm, TotalWeight(terms), k, c);
  }

  lemma ScoreErrorWithin(rows: seq<seq<real>>, m: Model, terms: seq<Term>, norm: real, total: real, k: real, c: nat)
    requires norm > 0.0 && total == TotalWeight(terms) && total <= k * norm
    requires Rectangular(rows, m.dimensions) && WellShaped(m, |rows|) && InRange(terms, m.dimensions) && c < |rows|
    requires m.coefficients == Packed(rows) && m.scales[c] == Scale(rows[c])
    ensures WithinHalves(Score(m, |rows|, terms, norm, c), ExactScore(rows[c], m.intercepts[c], terms, norm), k,
                         m.scales[c])
  {
    ScoreError(rows, m, terms, norm, c);
    BoundByRoot(Score(m, |rows|, terms, norm, c), ExactScore(rows[c], m.intercepts[c], terms, norm), total, m.scales[c],
        norm, k);
  }

  // ----- What a score does not depend on -----

  function Rescale(terms: seq<Term>, factor: real): (r: seq<Term>)
    ensures |r| == |terms|
    ensures forall t :: 0 <= t < |terms| ==> r[t] == Term(terms[t].position, factor * terms[t].weight)
  {
    seq(|terms|, t requires 0 <= t < |terms| => Term(terms[t].position, factor * terms[t].weight))
  }

  lemma {:induction false} SumScales(f: nat -> real, g: nat -> real, factor: real, n: nat)
    requires forall t :: 0 <= t < n ==> g(t) == factor * f(t)
    ensures Sum(g, n) == factor * Sum(f, n)
  {
    if n > 0 {
      SumScales(f, g, factor, n - 1);
      assert factor * Sum(f, n) == factor * Sum(f, n - 1) + factor * f(n - 1);
    }
  }

  lemma DotScales(row: seq<real>, terms: seq<Term>, factor: real)
    requires InRange(terms, |row|)
    ensures Dot(row, Rescale(terms, factor)) == factor * Dot(row, terms)
  {
    var f, g := Share(row, terms), Share(row, Rescale(terms, factor));
    forall t: nat | t < |terms| ensures g(t) == factor * f(t) {
      assert row[terms[t].position] * (factor * terms[t].weight) == factor * (row[terms[t].position] * terms[t].weight);
    }
    SumScales(f, g, factor, |terms|);
  }

  lemma NormScales(root: real -> real, terms: seq<Term>, factor: real)
    requires IsRoot(root) && factor > 0.0 && !AllZero(terms)
    ensures Norm(root, Rescale(terms, factor)) == factor * Norm(root, terms)
  {
    LengthScales(terms, factor, factor * factor);
    NonZeroScales(terms, factor);
    NormIsLength(root, terms);
    var n := Norm(root, terms);
    ProductOfRoots(factor, n, factor * factor, SquaredLength(terms));
    NormIs(root, Rescale(terms, factor), factor * n);
  }

  lemma ScaledSquare(w: real, factor: real, square: real)
    requires square == factor * factor
    ensures (factor * w) * (factor * w) == square * (w * w)
  {
  }

  lemma LengthScales(terms: seq<Term>, factor: real, square: real)
    requires square == factor * factor
    ensures SquaredLength(Rescale(terms, factor)) == square * SquaredLength(terms)
  {
    var scaled := Rescale(terms, factor);
    var f, g := Square(terms), Square(scaled);
    forall t: nat | t < |terms| ensures g(t) == square * f(t) {
      ScaledSquare(terms[t].weight, factor, square);
    }
    SumScales(f, g, square, |terms|);
    SquaresSum(terms, |terms|);
    SquaresSum(scaled, |scaled|);
    assert terms[..|terms|] == terms && scaled[..|scaled|] == scaled;
  }

  lemma NonZeroScales(terms: seq<Term>, factor: real)
    requires factor > 0.0 && !AllZero(terms)
    ensures !AllZero(Rescale(terms, factor))
  {
    var t :| 0 <= t < |terms| && terms[t].weight != 0.0;
    ZeroOnly(terms[t].weight, factor);
    assert Rescale(terms, factor)[t].weight != 0.0;
  }

  lemma ZeroOnly(a: real, b: real)
    requires b > 0.0
    ensures b * a == 0.0 ==> a == 0.0
  {
    if b * a == 0.0 {
      Zero(a, b);
    }
  }

  lemma SameQuotient(x: real, scale: real, norm: real, factor: real)
    requires norm > 0.0 && factor > 0.0
    ensures factor * norm > 0.0 && factor * x * scale / (factor * norm) == x * scale / norm
  {
    var q := x * scale / norm;
    assert q * norm == x * scale;
    assert q * (factor * norm) == factor * (q * norm) == factor * x * scale;
  }

  lemma {:induction false} NoWeightNoDot(row: seq<real>, terms: seq<Term>, n: nat)
    requires InRange(terms, |row|) && AllZero(terms) && n <= |terms|
    ensures Sum(Share(row, terms), n) == 0.0
  {
    if n > 0 {
      NoWeightNoDot(row, terms, n - 1);
    }
  }

  /** Only the direction of the weights matters: multiplying them all by one positive factor changes no score. */
  lemma ScoreIgnoresLength(m: Model, classes: nat, terms: seq<Term>, root: real -> real, factor: real, c: nat)
    requires IsRoot(root) && factor > 0.0 && WellShaped(m, classes) && c < classes && InRange(terms, m.dimensions)
    ensures Norm(root, terms) > 0.0 && Norm(root, Rescale(terms, factor)) > 0.0
    ensures Score(m, classes, Rescale(terms, factor), Norm(root, Rescale(terms, factor)), c)
            == Score(m, classes, terms, Norm(root, terms), c)
  {
    var scaled, bytes := Rescale(terms, factor), SignedRow(Row(m, classes, c));
    NormIsLength(root, terms);
    NormIsLength(root, scaled);
    DotScales(bytes, terms, factor);
    if AllZero(terms) {
      NoWeightNoDot(bytes, terms, |terms|);
    } else {
      NormScales(root, terms, factor);
    }
    SameClassScore(bytes, m.scales[c], m.intercepts[c], terms, scaled, Norm(root, terms), Norm(root, scaled), factor);
  }

  lemma SameClassScore(bytes: seq<real>, scale: real, intercept: real, terms: seq<Term>, scaled: seq<Term>, norm: real,
                       norm': real, factor: real)
    requires InRange(terms, |bytes|) && InRange(scaled, |bytes|) && |scaled| == |terms|
    requires norm > 0.0 && norm' > 0.0 && factor > 0.0 && Dot(bytes, scaled) == factor * Dot(bytes, terms)
    requires norm' == factor * norm || Dot(bytes, terms) == 0.0
    ensures ClassScore(bytes, scale, intercept, scaled, norm') == ClassScore(bytes, scale, intercept, terms, norm)
  {
    SameShare(Dot(bytes, terms), Dot(bytes, scaled), scale, norm, norm', factor);
  }

  lemma SameShare(x: real, x': real, scale: real, norm: real, norm': real, factor: real)
    requires norm > 0.0 && norm' > 0.0 && factor > 0.0 && x' == factor * x && (norm' == factor * norm || x == 0.0)
    ensures x' * scale / norm' == x * scale / norm
  {
    if x != 0.0 {
      SameQuotient(x, scale, norm, factor);
    }
  }

  /** With one matched term of positive weight a score is its intercept plus the term's coefficient read back. */
  lemma OneTermScore(m: Model, classes: nat, position: nat, weight: real, root: real -> real, c: nat)
    requires IsRoot(root) && weight > 0.0 && WellShaped(m, classes) && c < classes && position < m.dimensions
    ensures var terms := [Term(position, weight)];
            && Norm(root, terms) == weight && c * m.dimensions + position < |m.coefficients|
            && Score(m, classes, terms, Norm(root, terms), c)
               == m.intercepts[c] + Signed(m.coefficients[c * m.dimensions + position]) as real * m.scales[c]
  {
    var terms := [Term(position, weight)];
    RowInside(classes, m.dimensions, c);
    NormIsLength(root, terms);
    assert !AllZero(terms) && terms[..0] == [] && SquaredLength(terms[..0]) == 0.0;
    EqualSquares(Norm(root, terms), weight);
    var bytes := SignedRow(Row(m, classes, c));
    var q := bytes[position];
    assert Dot(bytes, terms) == Sum(Share(bytes, terms), 0) + q * weight;
    assert q * weight * m.scales[c] == q * m.scales[c] * weight;
    assert q * m.scales[c] * weight / weight == q * m.scales[c];
  }

  lemma {:induction false} SumSplits(f: nat -> real, g: nat -> real, h: nat -> real, k: nat, n: nat)
    requires forall t :: 0 <= t < k ==> h(t) == f(t)
    requires forall t :: 0 <= t < n ==> h(k + t) == g(t)
    ensures Sum(h, k + n) == Sum(f, k) + Sum(g, n)
  {
    if n > 0 {
      SumSplits(f, g, h, k, n - 1);
    } else if k > 0 {
      SumSplits(f, g, h, k - 1, 0);
    }
  }

  /** Terms contribute one by one: the value of more terms is the sum of the values. */
  lemma DotAdds(row: seq<real>, a: seq<Term>, b: seq<Term>)
    requires InRange(a, |row|) && InRange(b, |row|)
    ensures InRange(a + b, |row|) && Dot(row, a + b) == Dot(row, a) + Dot(row, b)
  {
    SumSplits(Share(row, a), Share(row, b), Share(row, a + b), |a|, |b|);
  }
}
