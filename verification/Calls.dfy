/** How a call to the cluster can end. A crash of the program is a call after which nothing more happens. */
module Calls {

  /** The answer arrives; the request is lost before it takes effect; or it takes effect and the answer is lost. */
  datatype Fate = Answered | RequestLost | AnswerLost

  datatype Reply<T> = Ok(value: T) | Failed
}
