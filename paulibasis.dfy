/**
 * The Pauli tomography basis: the six single-qubit Pauli eigenstates used
 * as preparations, and the three Pauli measurements with outcomes 0 and 1.
 * Every matrix entry is 0, 1, +-1/2 or +-i/2, so complex numbers are pairs
 * of exact reals and every property below holds exactly.
 */
module PauliBasis {
  import opened Wrappers

  /** A complex number re + im * i. */
  datatype Complex = Complex(re: real, im: real)

  const Zero := Complex(0.0, 0.0)
  const One := Complex(1.0, 0.0)
  const Half := Complex(0.5, 0.0)
  const MinusHalf := Complex(-0.5, 0.0)
  const HalfI := Complex(0.0, 0.5)
  const MinusHalfI := Complex(0.0, -0.5)

  function CAdd(a: Complex, b: Complex): Complex {
    Complex(a.re + b.re, a.im + b.im)
  }

  function CMul(a: Complex, b: Complex): Complex {
    Complex(a.re * b.re - a.im * b.im, a.re * b.im + a.im * b.re)
  }

  function Conj(a: Complex): Complex {
    Complex(a.re, -a.im)
  }

  /** The 2x2 matrix [[m00, m01], [m10, m11]]. */
  datatype Matrix2 = Matrix2(m00: Complex, m01: Complex, m10: Complex, m11: Complex)

  const Identity := Matrix2(One, Zero, Zero, One)
  const ZeroMatrix := Matrix2(Zero, Zero, Zero, Zero)

  function MAdd(a: Matrix2, b: Matrix2): Matrix2 {
    Matrix2(CAdd(a.m00, b.m00), CAdd(a.m01, b.m01), CAdd(a.m10, b.m10), CAdd(a.m11, b.m11))
  }

  function MMul(a: Matrix2, b: Matrix2): Matrix2 {
    Matrix2(CAdd(CMul(a.m00, b.m00), CMul(a.m01, b.m10)),
            CAdd(CMul(a.m00, b.m01), CMul(a.m01, b.m11)),
            CAdd(CMul(a.m10, b.m00), CMul(a.m11, b.m10)),
            CAdd(CMul(a.m10, b.m01), CMul(a.m11, b.m11)))
  }

  function Trace(m: Matrix2): Complex {
    CAdd(m.m00, m.m11)
  }

  /** The conjugate transpose. */
  function Adjoint(m: Matrix2): Matrix2 {
    Matrix2(Conj(m.m00), Conj(m.m10), Conj(m.m01), Conj(m.m11))
  }

  /** Equal to its conjugate transpose: the diagonal is real and m10 is the conjugate of m01. */
  predicate Hermitian(m: Matrix2) {
    Adjoint(m) == m
  }

  /** A pure-state density matrix: a Hermitian projector of trace one. */
  predicate IsPureState(m: Matrix2) {
    Hermitian(m) && Trace(m) == One && MMul(m, m) == m
  }

  /**
   * The single-qubit density matrix (I + x X + y Y + z Z) / 2 with Bloch
   * vector (x, y, z); X, Y and Z are the Pauli matrices.
   */
  function BlochState(x: real, y: real, z: real): Matrix2 {
    Matrix2(Complex((1.0 + z) / 2.0, 0.0), Complex(x / 2.0, -y / 2.0),
            Complex(x / 2.0, y / 2.0), Complex((1.0 - z) / 2.0, 0.0))
  }

  /** A Bloch vector on the unit sphere gives a pure state. */
  lemma BlochPure(x: real, y: real, z: real)
    requires x * x + y * y + z * z == 1.0
    ensures IsPureState(BlochState(x, y, z))
  {
  }

  /** Antipodal Bloch vectors give states that sum to the identity and are orthogonal. */
  lemma BlochAntipodes(x: real, y: real, z: real)
    requires x * x + y * y + z * z == 1.0
    ensures MAdd(BlochState(x, y, z), BlochState(-x, -y, -z)) == Identity
    ensures MMul(BlochState(x, y, z), BlochState(-x, -y, -z)) == ZeroMatrix
  {
  }

  /** BlochAntipodes, stated for matrices already known to be those Bloch states; used by `ComplementaryEigenstates`. */
  lemma AntipodesAt(p: Matrix2, m: Matrix2, x: real, y: real, z: real)
    requires x * x + y * y + z * z == 1.0
    requires p == BlochState(x, y, z) && m == BlochState(-x, -y, -z)
    ensures MAdd(p, m) == Identity && MMul(p, m) == ZeroMatrix
  {
    BlochAntipodes(x, y, z);
  }

  /** BlochPure, stated for a matrix already known to be that Bloch state; used by `PreparationPure`. */
  lemma PureAt(m: Matrix2, x: real, y: real, z: real)
    requires x * x + y * y + z * z == 1.0 && m == BlochState(x, y, z)
    ensures IsPureState(m)
  {
    BlochPure(x, y, z);
  }

  /** The preparation labels of the Pauli basis, in the order the basis lists them. */
  const PreparationLabels: seq<string> := ["Xp", "Xm", "Yp", "Ym", "Zp", "Zm"]

  /** The measurement labels of the Pauli basis. */
  const MeasurementLabels: seq<string> := ["X", "Y", "Z"]

  /**
   * The matrix of a Pauli eigenstate preparation; None for a label outside
   * the vocabulary, where the source falls through every test.
   */
  function PreparationMatrix(name: string): (r: Option<Matrix2>)
    ensures r.Some? <==> name in PreparationLabels
  {
    if name == "Xp" then Some(Matrix2(Half, Half, Half, Half))
    else if name == "Xm" then Some(Matrix2(Half, MinusHalf, MinusHalf, Half))
    else if name == "Yp" then Some(Matrix2(Half, MinusHalfI, HalfI, Half))
    else if name == "Ym" then Some(Matrix2(Half, HalfI, MinusHalfI, Half))
    else if name == "Zp" then Some(Matrix2(One, Zero, Zero, Zero))
    else if name == "Zm" then Some(Matrix2(Zero, Zero, Zero, One))
    else None
  }

  /** A measurement outcome as the source accepts it: an integer or a string. */
  datatype Outcome = IntOutcome(n: int) | StrOutcome(s: string)

  /** The source's test `outcome in ['0', 0]`. */
  predicate IsOutcomeZero(o: Outcome) {
    o == StrOutcome("0") || o == IntOutcome(0)
  }

  /** The source's test `outcome in ['1', 1]`. */
  predicate IsOutcomeOne(o: Outcome) {
    o == StrOutcome("1") || o == IntOutcome(1)
  }

  /**
   * The matrix of a Pauli measurement outcome: outcome 0 of a measurement
   * is the "p" eigenstate of that axis and outcome 1 the "m" eigenstate.
   */
  function MeasurementMatrix(name: string, outcome: Outcome): (r: Option<Matrix2>)
    ensures r.Some? <==> name in MeasurementLabels && (IsOutcomeZero(outcome) || IsOutcomeOne(outcome))
  {
    if name == "X" && IsOutcomeZero(outcome) then PreparationMatrix("Xp")
    else if name == "X" && IsOutcomeOne(outcome) then PreparationMatrix("Xm")
    else if name == "Y" && IsOutcomeZero(outcome) then PreparationMatrix("Yp")
    else if name == "Y" && IsOutcomeOne(outcome) then PreparationMatrix("Ym")
    else if name == "Z" && IsOutcomeZero(outcome) then PreparationMatrix("Zp")
    else if name == "Z" && IsOutcomeOne(outcome) then PreparationMatrix("Zm")
    else None
  }

  /** The Bloch vector of each preparation label: the unit vector along its axis, with its sign. */
  function BlochVector(name: string): (real, real, real) {
    if name == "Xp" then (1.0, 0.0, 0.0) else if name == "Xm" then (-1.0, 0.0, 0.0)
    else if name == "Yp" then (0.0, 1.0, 0.0) else if name == "Ym" then (0.0, -1.0, 0.0)
    else if name == "Zp" then (0.0, 0.0, 1.0) else (0.0, 0.0, -1.0)
  }

  /** Every preparation matrix is the Bloch state of a unit vector along its axis. */
  lemma PreparationIsBlochState(name: string)
    requires name in PreparationLabels
    ensures var (x, y, z) := BlochVector(name);
      && PreparationMatrix(name) == Some(BlochState(x, y, z))
      && x * x + y * y + z * z == 1.0
  {
  }

  /**
   * Each of the six preparation matrices is a pure-state density matrix:
   * Hermitian, of trace one and equal to its own square.
   */
  lemma PreparationPure(name: string)
    requires name in PreparationLabels
    ensures PreparationMatrix(name).Some?
    ensures Hermitian(PreparationMatrix(name).value)
    ensures Trace(PreparationMatrix(name).value) == One
    ensures MMul(PreparationMatrix(name).value, PreparationMatrix(name).value) == PreparationMatrix(name).value
  {
    PreparationIsBlochState(name);
    var v := BlochVector(name);
    PureAt(PreparationMatrix(name).value, v.0, v.1, v.2);
  }

  /** The two eigenstates of one axis sum to the identity and annihilate each other. */
  lemma ComplementaryEigenstates(axis: string)
    requires axis in MeasurementLabels
    ensures PreparationMatrix(axis + "p").Some? && PreparationMatrix(axis + "m").Some?
    ensures MAdd(PreparationMatrix(axis + "p").value, PreparationMatrix(axis + "m").value) == Identity
    ensures MMul(PreparationMatrix(axis + "p").value, PreparationMatrix(axis + "m").value) == ZeroMatrix
  {
    var plus, minus := axis + "p", axis + "m";
    assert plus in PreparationLabels && minus in PreparationLabels by {
      if axis == "X" {
        assert plus == "Xp" && minus == "Xm";
      } else if axis == "Y" {
        assert plus == "Yp" && minus == "Ym";
      } else {
        assert plus == "Zp" && minus == "Zm";
      }
    }
    PreparationIsBlochState(plus);
    PreparationIsBlochState(minus);
    var v, w := BlochVector(plus), BlochVector(minus);
    assert w == (-v.0, -v.1, -v.2) by {
      if axis == "X" {
        assert plus == "Xp" && minus == "Xm";
      } else if axis == "Y" {
        assert plus == "Yp" && minus == "Ym";
      } else {
        assert plus == "Zp" && minus == "Zm";
      }
    }
    AntipodesAt(PreparationMatrix(plus).value, PreparationMatrix(minus).value, v.0, v.1, v.2);
  }

  /** Outcome 0 of measuring an axis is its "p" preparation, outcome 1 its "m" preparation. */
  lemma MeasurementIsPreparation(axis: string)
    requires axis in MeasurementLabels
    ensures MeasurementMatrix(axis, IntOutcome(0)) == PreparationMatrix(axis + "p")
    ensures MeasurementMatrix(axis, IntOutcome(1)) == PreparationMatrix(axis + "m")
  {
    if axis == "X" {
      assert axis + "p" == "Xp" && axis + "m" == "Xm";
    } else if axis == "Y" {
      assert axis + "p" == "Yp" && axis + "m" == "Ym";
    } else {
      assert axis + "p" == "Zp" && axis + "m" == "Zm";
    }
  }

  /** An outcome written as the string "0" or "1" selects the same matrix as the integer. */
  lemma StringOutcomeAsInteger(name: string)
    ensures MeasurementMatrix(name, StrOutcome("0")) == MeasurementMatrix(name, IntOutcome(0))
    ensures MeasurementMatrix(name, StrOutcome("1")) == MeasurementMatrix(name, IntOutcome(1))
  {
  }

  /** The two outcome operators of every Pauli measurement form a complete projective measurement. */
  lemma MeasurementComplete(axis: string)
    requires axis in MeasurementLabels
    ensures MeasurementMatrix(axis, IntOutcome(0)).Some? && MeasurementMatrix(axis, IntOutcome(1)).Some?
    ensures MAdd(MeasurementMatrix(axis, IntOutcome(0)).value,
                 MeasurementMatrix(axis, IntOutcome(1)).value) == Identity
    ensures MMul(MeasurementMatrix(axis, IntOutcome(0)).value,
                 MeasurementMatrix(axis, IntOutcome(1)).value) == ZeroMatrix
  {
    MeasurementIsPreparation(axis);
    ComplementaryEigenstates(axis);
  }
}
