/** The export-queue adapter: validates the queue URL and sends one export request. The
    send call is a parameter returning the service's `MessageId` or throwing. */
module Sqs {
  import opened Types
  import opened Strings

  /** `ExportQueueMessage`; its `exportType` is always "csv". */
  datatype ExportQueueMessage = ExportQueueMessage(exportId: string, requestedAt: string,
                                                   filters: Option<Value>)

  const ExportType: string := "csv"

  /** The body of a send: the queue, the serialised message and the two string attributes. */
  datatype SendMessageRequest = SendMessageRequest(queueUrl: string, messageBody: string,
                                                   attributes: map<string, string>)

  const NotConfiguredMessage: string :=
    "SQS_QUEUE_URL environment variable is not configured. Please set this to your SQS queue URL."
  const MalformedUrlMessage: string :=
    "SQS_QUEUE_URL must be a valid SQS queue URL (e.g., https://sqs.us-east-1.amazonaws.com/123456789012/queue-name)"
  const NoMessageIdMessage: string := "Failed to send message to SQS queue - no MessageId returned"
  const QueueFailurePrefix: string := "Failed to queue export request: "

  /** `new Error(message)`. */
  function NewError(message: string): Thrown {
    ErrorInstance("Error", message, None, None)
  }

  /** The accepted shape of a queue URL. */
  predicate WellFormedQueueUrl(url: string) {
    StartsWith(url, "https://sqs.") && Contains(url, ".amazonaws.com/")
  }

  function RequestFor(message: ExportQueueMessage, queueUrl: string, stringify: Value -> string)
    : SendMessageRequest
  {
    SendMessageRequest(queueUrl, stringify(MessageValue(message)),
                       map["exportType" := ExportType, "requestedAt" := message.requestedAt])
  }

  function MessageValue(message: ExportQueueMessage): Value {
    Record([Field("exportId", Str(message.exportId)), Field("requestedAt", Str(message.requestedAt)),
            Field("exportType", Str(ExportType))]
           + (if message.filters.Some? then [Field("filters", message.filters.value)] else []))
  }

  /** The message the `catch` re-throws for a caught value: an `Error`'s message is kept
      after the prefix, any other value loses its content. */
  function Rewrapped(e: Thrown): (r: string)
    ensures StartsWith(r, QueueFailurePrefix)
    ensures e.ErrorInstance? ==> r[|QueueFailurePrefix|..] == e.message
    ensures !e.ErrorInstance? ==> r == QueueFailurePrefix + "Unknown error"
  {
    QueueFailurePrefix + (if e.ErrorInstance? then e.message else "Unknown error")
  }

  /** `sendExportMessage`. `queueUrl` is `SQS_QUEUE_URL`; `send` stands for the client's
      send: the `MessageId` of the response (`None` when absent) or the value it throws. */
  function SendExportMessage(message: ExportQueueMessage, queueUrl: Option<string>,
                             stringify: Value -> string,
                             send: SendMessageRequest -> Result<Option<string>, Thrown>)
    : (r: Result<string, Thrown>)
    ensures (queueUrl.None? || queueUrl.value == "") ==> r == Failure(NewError(NotConfiguredMessage))
    ensures queueUrl.Some? && queueUrl.value != "" && !WellFormedQueueUrl(queueUrl.value) ==>
      r == Failure(NewError(MalformedUrlMessage))
    ensures r.Success? ==>
      queueUrl.Some? && WellFormedQueueUrl(queueUrl.value) && r.value != ""
      && send(RequestFor(message, queueUrl.value, stringify)) == Success(Some(r.value))
    ensures queueUrl.Some? && WellFormedQueueUrl(queueUrl.value) ==>
      var outcome := send(RequestFor(message, queueUrl.value, stringify));
      && (outcome.Success? && outcome.value.Some? && outcome.value.value != "" ==>
            r == Success(outcome.value.value))
      && (outcome.Failure? ==> r == Failure(NewError(Rewrapped(outcome.error))))
      && (outcome.Success? && (outcome.value.None? || outcome.value.value == "") ==>
            r == Failure(NewError(QueueFailurePrefix + NoMessageIdMessage)))
    ensures r.Failure? && queueUrl.Some? && WellFormedQueueUrl(queueUrl.value) ==>
      r.error.ErrorInstance? && StartsWith(r.error.message, QueueFailurePrefix)
  {
    if queueUrl.None? || queueUrl.value == "" then Failure(NewError(NotConfiguredMessage))
    else if !WellFormedQueueUrl(queueUrl.value) then Failure(NewError(MalformedUrlMessage))
    else
      var inner: Result<string, Thrown> :=
        match send(RequestFor(message, queueUrl.value, stringify))
        case Failure(e) => Failure(e)
        case Success(id) =>
          if id.None? || id.value == "" then Failure(NewError(NoMessageIdMessage)) else Success(id.value);
      match inner
      case Success(id) => Success(id)
      case Failure(e) => Failure(NewError(Rewrapped(e)))
  }
}
