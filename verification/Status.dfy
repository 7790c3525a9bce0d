// The status codes the modelled calls return.
module Status {
  datatype Status = Success | IllegalArgument | InvalidState | NotSupported | OutOfResource | Timeout
}
