module StoreCalls {
  /** How one store write ends: applied, failed without effect, or failed although applied. */
  datatype Landing = Landed | Refused | LandedThenFailed
}
