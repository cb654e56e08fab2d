/** Why an operation was refused, as the crate reports it. */
module Errors {
  datatype AmqpError =
    | Closed
    | InvalidOptions
    | Publish
    | Transaction
    | Request
    | RequestTimeout
    | Consume

  datatype AckError = Unsupported | Broker
}
