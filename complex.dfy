/**
 * Complex numbers as pairs of exact reals. Only the operations the Ybus
 * assembler uses are defined: `+`, `-` and negation.
 */
module ComplexNumbers {

  datatype Complex = Complex(re: real, im: real)

  const Zero := Complex(0.0, 0.0)

  function Add(x: Complex, y: Complex): Complex
  {
    Complex(x.re + y.re, x.im + y.im)
  }

  function Neg(x: Complex): (r: Complex)
    ensures Add(x, r) == Zero
  {
    Complex(-x.re, -x.im)
  }

  function Sub(x: Complex, y: Complex): (r: Complex)
    ensures Add(r, y) == x
  {
    Complex(x.re - y.re, x.im - y.im)
  }
}
