/** The export-file adapter: uploads CSV text to a bucket under a timestamped name and
    returns a time-limited download link. The clock, the ISO formatter, the upload and the
    presigner are parameters. */
module S3 {
  import opened Types
  import AwsErrors

  const S3Texts: AwsErrors.ErrorTexts :=
    AwsErrors.ErrorTexts("File export operation failed", "AWS service error occurred",
                         "An unexpected error occurred during export")

  /** `handleS3Error`: starts from a default error and overwrites its fields. */
  method HandleS3Error(error: Thrown, development: bool) returns (apiError: ApiError)
    ensures apiError == AwsErrors.Normalized(error, S3Texts, development)
  {
    apiError := ApiError(S3Texts.initial, Some(UnknownCode), Some(Record([])), None);
    if AwsErrors.IsAwsError(error) {
      apiError := apiError.(code := Some(AwsErrors.NameOf(error)));
      apiError := apiError.(message := AwsErrors.MessageOr(error, S3Texts.awsFallback));
      apiError := apiError.(details := Some(Raised(error)));
      if development {
        apiError := apiError.(stack := AwsErrors.StackOf(error));
      }
    } else if error.ErrorInstance? {
      // `error instanceof Error`: every Error instance has already passed `IsAwsError`.
      assert false;
    } else {
      apiError := apiError.(message := S3Texts.unexpected);
      apiError := apiError.(details := Some(Str(StringOf(error))));
    }
  }

  const DefaultBucket: string := "todo-exports-dev"

  /** `S3_BUCKET_NAME || 'todo-exports-dev'`. */
  function BucketName(configured: Option<string>): (b: string)
    ensures b != ""
    ensures configured.Some? && configured.value != "" ==> b == configured.value
    ensures !(configured.Some? && configured.value != "") ==> b == DefaultBucket
  {
    if configured.Some? && configured.value != "" then configured.value else DefaultBucket
  }

  /** `replace(/[:.]/g, '-')`: every colon and dot becomes a dash, nothing else changes. */
  function Dashify(s: string): (r: string)
    ensures |r| == |s|
    ensures forall i :: 0 <= i < |s| ==> r[i] == (if s[i] == ':' || s[i] == '.' then '-' else s[i])
  {
    if |s| == 0 then "" else [if s[0] == ':' || s[0] == '.' then '-' else s[0]] + Dashify(s[1..])
  }

  const FilePrefix: string := "todo-export-"
  const FileSuffix: string := ".csv"

  function FileName(timestamp: string): string {
    FilePrefix + Dashify(timestamp) + FileSuffix
  }

  /** A generated name has no colon, and its only dot is the one before `csv`. */
  lemma FileNameShape(timestamp: string)
    ensures var f := FileName(timestamp);
      && |f| == |FilePrefix| + |timestamp| + |FileSuffix|
      && f[..|FilePrefix|] == FilePrefix && f[|f| - |FileSuffix|..] == FileSuffix
      && (forall i :: 0 <= i < |f| ==> f[i] != ':')
      && (forall i :: 0 <= i < |f| ==> (f[i] == '.' <==> i == |f| - 4))
  {
    var f := FileName(timestamp);
    var d := Dashify(timestamp);
    forall i | 0 <= i < |f|
      ensures f[i] != ':' && (f[i] == '.' <==> i == |f| - 4)
    {
      if i < |FilePrefix| {
        assert f[i] == FilePrefix[i];
      } else if i < |FilePrefix| + |d| {
        assert f[i] == d[i - |FilePrefix|];
      } else {
        assert f[i] == FileSuffix[i - |FilePrefix| - |d|];
      }
    }
  }

  /** The object's `Content-Disposition`: a download under the generated name. */
  function ContentDisposition(fileName: string): string {
    "attachment; filename=\"" + fileName + "\""
  }

  const CsvContentType: string := "text/csv"
  /** The link lifetime: 600 seconds to the presigner, 600000 ms on the clock. */
  const ExpiresInSeconds: int := 600
  const ExpiresInMillis: int := 600000

  datatype StoredObject = StoredObject(body: string, contentType: string, contentDisposition: string)

  class ExportBucket {
    /** The bucket's objects, by key. */
    var objects: map<string, StoredObject>
    const bucket: string
    /** `NODE_ENV === 'development'`. */
    const development: bool

    constructor (configured: Option<string>, development: bool)
      ensures objects == map[] && bucket == BucketName(configured) && this.development == development
    {
      objects := map[];
      bucket := BucketName(configured);
      this.development := development;
    }

    /** `uploadCSVAndGetSignedUrl`. `now` is the clock read for the name and `later` the
        one read for the expiry; `iso` formats a clock reading; `putFault` is what the
        upload throws, if anything; `presign(bucket, key, seconds)` is the presigner. */
    method UploadCsvAndGetSignedUrl(csv: string, now: int, later: int, iso: int -> string,
                                    putFault: Option<Thrown>,
                                    presign: (string, string, int) -> Result<string, Thrown>)
      returns (r: Result<ExportResponse, ApiError>)
      modifies this
      ensures var name := FileName(iso(now));
        && (putFault.Some? ==>
              objects == old(objects)
              && r == Failure(AwsErrors.Normalized(putFault.value, S3Texts, development)))
        && (putFault.None? ==>
              objects == old(objects)[name := StoredObject(csv, CsvContentType, ContentDisposition(name))])
        && (putFault.None? && presign(bucket, name, ExpiresInSeconds).Failure? ==>
              r == Failure(AwsErrors.Normalized(presign(bucket, name, ExpiresInSeconds).error, S3Texts, development)))
        && (putFault.None? && presign(bucket, name, ExpiresInSeconds).Success? ==>
              r == Success(ExportResponse(presign(bucket, name, ExpiresInSeconds).value,
                                          iso(later + ExpiresInMillis), name)))
    {
      var fileName := FileName(iso(now));
      if putFault.Some? {
        var e := HandleS3Error(putFault.value, development);
        return Failure(e);
      }
      objects := objects[fileName := StoredObject(csv, CsvContentType, ContentDisposition(fileName))];
      var signed := presign(bucket, fileName, ExpiresInSeconds);
      if signed.Failure? {
        var e := HandleS3Error(signed.error, development);
        return Failure(e);
      }
      r := Success(ExportResponse(signed.value, iso(later + ExpiresInMillis), fileName));
    }
  }
}
