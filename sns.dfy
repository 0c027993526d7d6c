/** The notification adapter: publishes a todo record to an SNS topic. The publish call is
    a parameter that either accepts the request or throws. */
module Sns {
  import opened Types
  import opened Strings
  import AwsErrors

  const SnsTexts: AwsErrors.ErrorTexts :=
    AwsErrors.ErrorTexts("SNS notification failed", "AWS SNS service error occurred",
                         "An unexpected SNS error occurred")

  /** `handleSNSError`: starts from a default error and overwrites its fields. */
  method HandleSnsError(error: Thrown, development: bool) returns (apiError: ApiError)
    ensures apiError == AwsErrors.Normalized(error, SnsTexts, development)
  {
    apiError := ApiError(SnsTexts.initial, Some(UnknownCode), Some(Record([])), None);
    if AwsErrors.IsAwsError(error) {
      apiError := apiError.(code := Some(AwsErrors.NameOf(error)));
      apiError := apiError.(message := AwsErrors.MessageOr(error, SnsTexts.awsFallback));
      apiError := apiError.(details := Some(Raised(error)));
      if development {
        apiError := apiError.(stack := AwsErrors.StackOf(error));
      }
    } else if error.ErrorInstance? {
      // `error instanceof Error`: every Error instance has already passed `IsAwsError`.
      assert false;
    } else {
      apiError := apiError.(message := SnsTexts.unexpected);
      apiError := apiError.(details := Some(Str(StringOf(error))));
    }
  }

  const CompletedPrefix: string := "Todo Completed: "
  const UpdatedPrefix: string := "Todo Updated: "

  /** The subject line: "Completed" exactly for a done todo, then the description. */
  function Subject(todo: TodoItem): (r: string)
    ensures todo.status == Done <==> StartsWith(r, CompletedPrefix)
    ensures todo.status != Done <==> StartsWith(r, UpdatedPrefix)
    ensures |todo.description| <= |r| && r[|r| - |todo.description|..] == todo.description
    ensures |r| == (if todo.status == Done then |CompletedPrefix| else |UpdatedPrefix|)
                   + |todo.description|
  {
    var r := (if todo.status == Done then CompletedPrefix else UpdatedPrefix) + todo.description;
    assert CompletedPrefix[5] != UpdatedPrefix[5];
    assert r[|r| - |todo.description|..] == todo.description;
    r
  }

  /** The todo record as the JSON object `JSON.stringify` serialises. */
  function TodoRecord(todo: TodoItem): Value {
    Record([Field("id", Str(todo.id)), Field("description", Str(todo.description)),
            Field("dueDate", Str(todo.dueDate)), Field("priority", Str(PriorityName(todo.priority))),
            Field("status", Str(StatusName(todo.status))), Field("createdAt", Str(todo.createdAt)),
            Field("updatedAt", Str(todo.updatedAt))])
  }

  datatype PublishRequest = PublishRequest(topicArn: string, message: string, subject: string)

  const ConfigurationCode: string := "CONFIGURATION_ERROR"

  /** The error thrown when no topic is configured. */
  const MissingTopic: ApiError :=
    ApiError("SNS_TOPIC_ARN environment variable is not configured", Some(ConfigurationCode),
             Some(Record([Field("hint", Str("Please set the SNS_TOPIC_ARN environment variable to a valid SNS topic ARN")),
                          Field("environmentVariable", Str("SNS_TOPIC_ARN"))])),
             None)

  /** `sendTodoNotification`. `topicArn` is `SNS_TOPIC_ARN`, `stringify` stands for
      `JSON.stringify(_, null, 2)` and `publish` for the client's send, `None` when it
      succeeds. The result is the request published. */
  function SendTodoNotification(todo: TodoItem, topicArn: Option<string>, stringify: Value -> string,
                                publish: PublishRequest -> Option<Thrown>, development: bool)
    : (r: Result<PublishRequest, ApiError>)
    ensures (topicArn.None? || topicArn.value == "") <==> r == Failure(MissingTopic)
    ensures r.Success? ==>
      r.value == PublishRequest(topicArn.value, stringify(TodoRecord(todo)), Subject(todo))
      && publish(r.value).None?
    ensures r.Failure? && r.error != MissingTopic ==>
      var req := PublishRequest(topicArn.value, stringify(TodoRecord(todo)), Subject(todo));
      publish(req).Some? && r.error == AwsErrors.Normalized(publish(req).value, SnsTexts, development)
  {
    if topicArn.None? || topicArn.value == "" then Failure(MissingTopic)
    else
      var req := PublishRequest(topicArn.value, stringify(TodoRecord(todo)), Subject(todo));
      match publish(req)
      case None => Success(req)
      case Some(e) => Failure(AwsErrors.Normalized(e, SnsTexts, development))
  }

  /** A failed publish never surfaces as the configuration error: the normalised error
      carries the caught value itself or the unknown code. */
  lemma PublishFailureIsNotConfiguration(e: Thrown, development: bool)
    ensures AwsErrors.Normalized(e, SnsTexts, development) != MissingTopic
  {
    var n := AwsErrors.Normalized(e, SnsTexts, development);
    if !AwsErrors.IsAwsError(e) {
      assert n.code == Some(UnknownCode);
      assert UnknownCode[0] != ConfigurationCode[0];
    }
  }
}
