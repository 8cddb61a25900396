/** `POST /api/upload`: stores an uploaded image under
    `public/uploads/profiles` or `public/uploads/covers`, named after the
    upload time and the original extension, and answers with its URL. The
    session email, the form fields, `Date.now()` and whether the write
    succeeds are inputs. */
module UploadRoute {
  import opened Common
  import opened JsText

  datatype Body = Url(url: string) | Error(error: string)

  datatype Reply = Reply(status: int, body: Body)

  /** The reply, and the path (under the working directory) of the file the
      handler wrote, if it wrote one. */
  datatype Outcome = Outcome(reply: Reply, written: Option<string>)

  /** `type === 'profile' ? 'profiles' : 'covers'` */
  function UploadDir(kind: Option<string>): (d: string)
    ensures d == "profiles" <==> kind == Some("profile")
    ensures d == "profiles" || d == "covers"
  {
    if kind == Some("profile") then "profiles" else "covers"
  }

  /** `file.name.split('.').pop()` */
  function Extension(fileName: string): string {
    AfterLast(fileName, '.')
  }

  /** `${timestamp}.${extension}` */
  function FileName(timestamp: nat, fileName: string): string {
    NatToString(timestamp) + "." + Extension(fileName)
  }

  function Upload(session: Option<string>, file: Option<string>, kind: Option<string>,
                  timestamp: nat, writeOk: bool): (o: Outcome)
    ensures session.None? || session.value == "" ==> o == Outcome(Reply(401, Error("Unauthorized")), None)
    ensures o.reply.status == 200 <==> o.written.Some?
    ensures o.reply.status in {200, 400, 401, 500}
  {
    if session.None? || session.value == "" then Outcome(Reply(401, Error("Unauthorized")), None)
    else if file.None? then Outcome(Reply(400, Error("No file received")), None)
    else if !writeOk then Outcome(Reply(500, Error("Upload failed")), None)
    else
      var dir := UploadDir(kind);
      var tail := dir + "/" + FileName(timestamp, file.value);
      Outcome(Reply(200, Url("/uploads/" + tail)), Some("public/uploads/" + tail))
  }

  /** The extension has no '.', and is the whole name when the name has none. */
  lemma ExtensionShape(fileName: string)
    ensures '.' !in Extension(fileName)
    ensures '.' !in fileName ==> Extension(fileName) == fileName
  {
    var e := Extension(fileName);
    assert |e| < |fileName| ==> fileName[|fileName| - |e| - 1] in fileName;
  }

  /** The stored name keeps the original extension: reading the extension
      of the stored name gives the uploaded name's extension back, and the
      part before it is the timestamp. */
  lemma StoredNameKeepsExtension(timestamp: nat, fileName: string)
    ensures Extension(FileName(timestamp, fileName)) == Extension(fileName)
    ensures StartsWith(FileName(timestamp, fileName), NatToString(timestamp) + ".")
  {
    ExtensionShape(fileName);
    AfterLastOfAppended(NatToString(timestamp), '.', Extension(fileName));
    assert FileName(timestamp, fileName) == NatToString(timestamp) + ['.'] + Extension(fileName);
    assert FileName(timestamp, fileName)[..|NatToString(timestamp) + "."|] == NatToString(timestamp) + ".";
  }

  /** On success the URL is the written path without its `public` prefix,
      under the directory chosen by `type`, and names the stored file. */
  lemma UrlMatchesWrittenFile(session: string, file: string, kind: Option<string>, timestamp: nat)
    requires session != ""
    ensures var o := Upload(Some(session), Some(file), kind, timestamp, true);
      && o.reply.body.Url? && o.written.Some?
      && o.written.value == "public" + o.reply.body.url
      && o.reply.body.url == "/uploads/" + (UploadDir(kind) + "/" + FileName(timestamp, file))
  {
    var tail := UploadDir(kind) + "/" + FileName(timestamp, file);
    PrefixSplits(tail);
  }

  lemma PrefixSplits(tail: string)
    ensures "public/uploads/" + tail == "public" + ("/uploads/" + tail)
  {
    assert "public/uploads/" == "public" + "/uploads/";
  }

  /** A failed write answers 500 "Upload failed" and leaves no file. */
  lemma FailedWriteReportsUploadFailed(session: string, file: string, kind: Option<string>, timestamp: nat)
    requires session != ""
    ensures Upload(Some(session), Some(file), kind, timestamp, false) == Outcome(Reply(500, Error("Upload failed")), None)
  {
  }
}
