/** Double precision floating point, left open: results hold for every unit that computes it. */
module Floats {

  /** A double, by its bit pattern. */
  type Double = nat

  /** What a literal stands for, and what each operation computes of two doubles; the comparisons are the ordered
      ones, so a NaN may be in none of them. */
  datatype Fpu = Fpu(constant: string -> Double,
                     plus: (Double, Double) -> Double, minus: (Double, Double) -> Double,
                     times: (Double, Double) -> Double, over: (Double, Double) -> Double,
                     above: (Double, Double) -> bool, below: (Double, Double) -> bool,
                     atLeast: (Double, Double) -> bool, atMost: (Double, Double) -> bool,
                     same: (Double, Double) -> bool)
}
