/**
 * The error codes of adv_errors.h. 0 is success, PE_DEFERRED (positive)
 * announces a completion to come, every other code is used negated.
 */
module Errors {
  const PE_NO_ERROR := 0
  const PE_DEFERRED := 1
  const PE_ABORT := 2
  const PE_INTERNAL := 3
  const PE_IO_ERROR := 4
  const PE_NOT_READY := 5
  const PE_NOT_POWERED := 6
  const PE_NOT_SUPPORTED := 7
  const PE_OVERFLOW := 8
  const PE_INVALID_REQUEST := 9
  const PE_INVALID_UUID := 10
  const PE_READ_ONLY := 11
  const PE_OUT_OF_RANGE := 12
  const PE_INVALID_COMMAND := 17
  const PE_INVALID_SIZE := 18
  const PE_BUSY := 19
  const PE_UNKNOWN := 23
  const PE_COUNT := 24
}
