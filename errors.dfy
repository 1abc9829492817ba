/**
 * The ways the engine stops. Each constructor stands for one exception the
 * original code raises at run time.
 */
module Errors {

  datatype Error =
      /** `AssertionError` at construction: a category lowercases to "others". */
    | ReservedCategory(category: string)
      /** `AssertionError` at construction: one pattern is a substring of another. */
    | PatternConflict(first: string, second: string)
      /** `IndexError` in the kernel statistics: an nccl kernel name holds no "_". */
    | NcclNameWithoutUnderscore(name: string)
      /** `AssertionError` in the range statistics: no range tag was given. */
    | MissingRangeTag
      /** `ZeroDivisionError` in the range statistics: no row carries the tag. */
    | NoMatchingRanges
      /** `IndexError` in the older classifier: a header is expected but there are no rows. */
    | MissingHeader
      /** `ZeroDivisionError` in the older classifier: a row reports zero instances. */
    | ZeroInstanceCount(name: string)
      /**
       * `ZeroDivisionError` while accumulating a data row: the iteration count
       * (times the GPU count, where there is one) is zero.
       */
    | ZeroDivisor
}
