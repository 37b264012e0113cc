/** The one fact about products that the division lemmas share. */
module Arithmetic {
  lemma SmallMultiple(b: int, k: int)
    requires -b < b * k < b
    ensures k == 0
  {}
}
