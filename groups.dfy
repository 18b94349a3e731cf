/** The two algebraic structures of the system.

    Ristretto points are represented by their discrete logarithm with respect
    to the Ristretto basepoint B (which is also `PedersenGens::default().B`),
    so a point is a residue modulo the group order L, B itself is 1, point
    addition is addition of logarithms and scalar multiplication is
    multiplication of logarithms. Scalars are residues modulo L as well.

    Elements of the BLS12-377 scalar field `Fr` are residues modulo its prime P. */
module Groups {
  import opened Modular

  /** Order of the Ristretto group (2^252 + 27742317777372353535851937790883648493). */
  const L: nat := 7237005577332262213973186563042994240857116359379907606001950938285454250989

  /** Modulus of the BLS12-377 scalar field. */
  const P: nat := 8444461749428370424248824938781546531375899335154063827935233455917409239041

  type Scalar = x: nat | x < L
  type Point = Scalar
  type Fr = x: nat | x < P

  /** The Ristretto basepoint (log 1). */
  const BasePoint: Point := 1

  function SAdd(a: Scalar, b: Scalar): Scalar { (a + b) % L }
  function SSub(a: Scalar, b: Scalar): Scalar { (a - b) % L }
  function SMul(a: Scalar, b: Scalar): Scalar { (a * b) % L }
  /** `Scalar::from(x as u64)`. */
  function SFrom(x: nat): Scalar { x % L }

  function PAdd(p: Point, q: Point): Point { (p + q) % L }
  function PSub(p: Point, q: Point): Point { (p - q) % L }
  /** `p * s` for a point p and a scalar s. */
  function PMul(p: Point, s: Scalar): Point { (p * s) % L }

  function FAdd(a: Fr, b: Fr): Fr { (a + b) % P }
  function FSub(a: Fr, b: Fr): Fr { (a - b) % P }
  function FMul(a: Fr, b: Fr): Fr { (a * b) % P }
  /** `Fr::from(x as u64)`. */
  function FFrom(x: nat): Fr { x % P }

  /** Multiplying the basepoint by x gives the point with log x. */
  lemma BaseMul(x: Scalar)
    ensures PMul(BasePoint, x) == x
  {
    ModOfSmall(x, L);
  }
}
