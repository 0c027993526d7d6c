/** The `/api/export` handler: list the table, refuse an empty one, otherwise serialise
    it to CSV, upload the file and answer with its download link. */
module ExportRoute {
  import opened Types
  import AwsErrors
  import ErrorHandler
  import DynamoDb
  import S3
  import CsvGenerator

  const NoDataCode: string := "NO_DATA"

  /** The error answered when there is nothing to export. */
  const NoData: ApiError :=
    ApiError("No todos to export", Some(NoDataCode),
             Some(Record([Field("hint", Str("Add some todos before exporting"))])), None)

  /** `POST /api/export`. `scanFault` is what the listing throws, if anything; `format` is
      the date formatter of the CSV; the remaining parameters are those of the upload.
      `exported` is the listing that was serialised. */
  method PostExport(store: DynamoDb.RecordStore, bucket: S3.ExportBucket, scanFault: Option<Thrown>,
                    format: CsvGenerator.DateFormatter, now: int, later: int, iso: int -> string,
                    putFault: Option<Thrown>, presign: (string, string, int) -> Result<string, Thrown>)
    returns (resp: ErrorHandler.Response<ExportResponse>, ghost exported: seq<TodoItem>)
    requires store.Valid() && store.development == bucket.development
    modifies bucket
    ensures scanFault.Some? ==>
      bucket.objects == old(bucket.objects)
      && resp == ErrorHandler.Response(500, ApiResponse(false, None,
                   Some(AwsErrors.Normalized(scanFault.value, DynamoDb.DynamoTexts, store.development))))
    ensures scanFault.None? && store.items == map[] ==>
      bucket.objects == old(bucket.objects)
      && resp == ErrorHandler.Response(400, ApiResponse(false, None, Some(NoData)))
    ensures scanFault.None? && store.items != map[] ==>
      var name := S3.FileName(iso(now));
      var signed := presign(bucket.bucket, name, S3.ExpiresInSeconds);
      && DynamoDb.Lists(exported, store.items) && |exported| > 0
      && (putFault.None? ==>
            bucket.objects == old(bucket.objects)[name :=
              S3.StoredObject(CsvGenerator.GenerateCsv(exported, format), S3.CsvContentType, S3.ContentDisposition(name))])
      && (putFault.None? && signed.Success? ==>
            resp == ErrorHandler.Response(200, ApiResponse(true,
                      Some(ExportResponse(signed.value, iso(later + S3.ExpiresInMillis), name)), None)))
      && (putFault.Some? ==>
            bucket.objects == old(bucket.objects)
            && resp == ErrorHandler.Response(500, ApiResponse(false, None,
                         Some(AwsErrors.Normalized(putFault.value, S3.S3Texts, store.development)))))
      && (putFault.None? && signed.Failure? ==>
            resp == ErrorHandler.Response(500, ApiResponse(false, None,
                      Some(AwsErrors.Normalized(signed.error, S3.S3Texts, store.development)))))
  {
    exported := [];
    var listed := store.GetAllTodos(scanFault);
    if listed.Failure? {
      ErrorHandler.ApiErrorPassesThrough(listed.error, store.development);
      return ErrorHandler.CreateErrorResponse(listed.error.AsThrown(), ErrorHandler.DefaultErrorStatus,
                                              store.development), exported;
    }
    var todos := listed.value;
    exported := todos;
    if |todos| == 0 {
      ErrorHandler.ApiErrorPassesThrough(NoData, store.development);
      return ErrorHandler.CreateErrorResponse(NoData.AsThrown(), 400, store.development), exported;
    }
    var csvContent := CsvGenerator.GenerateCsv(todos, format);
    var uploaded := bucket.UploadCsvAndGetSignedUrl(csvContent, now, later, iso, putFault, presign);
    match uploaded {
      case Success(link) =>
        var response := ExportResponse(link.downloadUrl, link.expiresAt, link.fileName);
        resp := ErrorHandler.CreateSuccessResponse(response, ErrorHandler.DefaultSuccessStatus);
      case Failure(e) =>
        ErrorHandler.ApiErrorPassesThrough(e, store.development);
        resp := ErrorHandler.CreateErrorResponse(e.AsThrown(), ErrorHandler.DefaultErrorStatus, store.development);
    }
  }
}
