/** The states of an operation. */
module Operations {
  datatype OpState = OpPending | OpCompleted | OpFailed | OpExpired
}
