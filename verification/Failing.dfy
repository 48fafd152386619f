// How a call to a store or a broker may go wrong.
module Failing {
  // A call that fails may or may not have taken effect before the error came back.
  datatype Fault = Works | FailsBefore | FailsAfter
}
