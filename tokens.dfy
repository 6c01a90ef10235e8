/**
 * A token of the programs' input as their integer reads see it: a number, or text that
 * does not parse as one.
 */
module Tokens {
  datatype Token = Number(value: int) | NotANumber
}
