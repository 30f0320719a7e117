/**
 * The shapes of the JSON replies the handlers and middlewares send. The HTTP status is kept
 * because the handlers choose it explicitly; `success` is implied by the constructor.
 */
module Http {

  /** A handler's reply. */
  datatype Reply =
    | Ok(status: nat)                              // { success: true }
    | Issued(status: nat, token: string)           // { success: true, token }
    | Fail(status: nat, message: string)           // { success: false, message }
    | Rejected(status: nat, messages: seq<string>) // validationResult(request).array()

  /** What an access guard does with a request: hand it on, or answer it. */
  datatype GuardResult = Next | Deny(status: nat, message: string)

  /** The outcome of handing a message to the mail service. */
  datatype Delivery = Delivered | Undelivered(message: string)

  /** A message passed to the mail service: recipient, subject and the link it carries. */
  datatype Mail = Mail(to: string, subject: string, link: string)
}
