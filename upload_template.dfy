/** The picture upload template (PictureUploadTemplate): validate the
    source, build a storage key that keeps only the original extension, stage
    the file in a temp file, send it to the object store with the processing
    rules, build the result from the compressed copy when the store produced
    one, and remove the temp file whatever happened. The subclass hooks
    (validPicture, getOriginalFilename, processFile) arrive as their
    outcomes. */
module UploadTemplate {
  import opened Common
  import FileNames
  import opened UploadTypes
  import TempFiles
  import Cos

  const UploadFailedMessage: string := "上传失败"

  /** The object whose key becomes the thumbnail url: the second derived
      object when there is one, else the compressed copy itself. */
  function ThumbnailObject(objects: seq<CIObject>): (o: CIObject)
    requires |objects| > 0
    ensures |objects| > 1 ==> o == objects[1]
    ensures |objects| == 1 ==> o == objects[0]
  {
    if |objects| > 1 then objects[1] else objects[0]
  }

  /** The result built from the compressed copy. */
  function ResultFromProcessed(host: string, originalFilename: string, compressed: CIObject,
                               thumbnail: CIObject, picScale: real): UploadPictureResult
  {
    UploadPictureResult(
      host + "/" + compressed.key, Some(host + "/" + thumbnail.key), FileNames.MainName(originalFilename),
      compressed.size, compressed.width, compressed.height, picScale, compressed.format)
  }

  /** Everything after validation: an Err means some step in the try block
      threw, which the template reports as the one system error. */
  function StoredResult(host: string, prefix: string, originalFilename: string, env: UploadEnv, scale: Scale)
    : (r: Result<UploadPictureResult>)
    ensures r.Err? ==> r.error == Error(SystemError, UploadFailedMessage)
    ensures r.Ok? ==> env.tempName.Some? && env.fetched && env.put.Some?
    ensures r.Ok? ==> r.value.picName == FileNames.MainName(originalFilename)
    ensures r.Ok? && |env.put.value.objects| > 0 ==>
      var objects := env.put.value.objects;
      && r.value.url == host + "/" + objects[0].key
      && r.value.thumbnailUrl == Some(host + "/" + (if |objects| > 1 then objects[1] else objects[0]).key)
      && r.value.picSize == objects[0].size
      && r.value.picWidth == objects[0].width && r.value.picHeight == objects[0].height
      && r.value.picFormat == objects[0].format
      && Some(r.value.picScale) == scale(objects[0].width, objects[0].height)
    ensures r.Ok? && |env.put.value.objects| == 0 ==>
      var info := env.put.value.originalInfo;
      && r.value.url == host + "/" + UploadPath(prefix, env.date, env.digits, originalFilename)
      && r.value.thumbnailUrl == None
      && r.value.picSize == env.localSize
      && r.value.picWidth == info.width && r.value.picHeight == info.height
      && r.value.picFormat == info.format
      && Some(r.value.picScale) == scale(info.width, info.height)
    ensures env.tempName.Some? && env.fetched && env.put.Some? &&
            (var p := env.put.value;
             if |p.objects| > 0 then scale(p.objects[0].width, p.objects[0].height).Some?
             else scale(p.originalInfo.width, p.originalInfo.height).Some?)
            ==> r.Ok?
  {
    var failed := Err(Error(SystemError, UploadFailedMessage));
    if env.tempName.None? || !env.fetched || env.put.None? then failed
    else
      var objects := env.put.value.objects;
      if |objects| > 0 then
        var compressed := objects[0];
        match scale(compressed.width, compressed.height)
        case None => failed
        case Some(picScale) =>
          Ok(ResultFromProcessed(host, originalFilename, compressed, ThumbnailObject(objects), picScale))
      else
        var info := env.put.value.originalInfo;
        match scale(info.width, info.height)
        case None => failed
        case Some(picScale) =>
          Ok(ResultFromOriginal(host, info, UploadPath(prefix, env.date, env.digits, originalFilename),
                                originalFilename, env.localSize, picScale))
  }

  /** The template's outcome: the hook's verdict first, then the stored result. */
  function UploadOutcome(host: string, check: Outcome, prefix: string, originalFilename: string,
                         env: UploadEnv, scale: Scale): (r: Result<UploadPictureResult>)
    ensures check.Fail? ==> r == Err(check.error)
    ensures check.Pass? ==> r == StoredResult(host, prefix, originalFilename, env, scale)
  {
    if check.Fail? then Err(check.error) else StoredResult(host, prefix, originalFilename, env, scale)
  }

  /** The temp files left behind by one upload: only the one whose delete
      failed. A refused source never creates one. */
  function LeftBehind(check: Outcome, env: UploadEnv): set<string> {
    if check.Pass? && env.tempName.Some? && !env.deleted then {env.tempName.value} else {}
  }

  class PictureUploader {
    const tmp: TempFiles.TempDir
    const host: string
    const bucket: string

    constructor (tmp: TempFiles.TempDir, host: string, bucket: string)
      ensures this.tmp == tmp && this.host == host && this.bucket == bucket
    {
      this.tmp := tmp;
      this.host := host;
      this.bucket := bucket;
    }

    /** uploadPicture. check is the subclass's validation verdict and
        originalFilename its name for the source, looked at only once the
        source passed. The temp name the system picks is a new file. */
    method UploadPicture(check: Outcome, prefix: string, originalFilename: string, env: UploadEnv, scale: Scale)
      returns (r: Result<UploadPictureResult>, sent: Option<Cos.PutObjectRequest>)
      requires env.tempName.Some? ==> env.tempName.value !in tmp.files
      modifies tmp
      ensures r == UploadOutcome(host, check, prefix, originalFilename, env, scale)
      ensures sent.Some? <==> check.Pass? && env.tempName.Some? && env.fetched
      ensures sent.Some? ==>
        && sent.value.bucket == bucket
        && sent.value.key == UploadPath(prefix, env.date, env.digits, originalFilename)
        && (|sent.value.picOperations.rules| == 2 <==> env.localSize > 2048)
      ensures tmp.files == old(tmp.files) + LeftBehind(check, env)
      ensures check.Pass? && env.tempName.Some? && !env.deleted ==>
        tmp.errorLog == old(tmp.errorLog) + [TempFiles.DeleteErrorMessage + env.tempName.value]
      ensures !(check.Pass? && env.tempName.Some? && !env.deleted) ==> tmp.errorLog == old(tmp.errorLog)
    {
      sent := None;
      if check.Fail? {
        return Err(check.error), sent;
      }
      var uploadPath := UploadPath(prefix, env.date, env.digits, originalFilename);
      var file := tmp.CreateTempFile(env.tempName);
      r := StoredResult(host, prefix, originalFilename, env, scale);
      if file.Some? && env.fetched {
        // The request the store receives; its reply is env.put.
        var request := Cos.PutPictureObject(bucket, uploadPath, env.localSize);
        sent := Some(request);
      }
      tmp.DeleteTempFile(file, env.deleted);
    }
  }

  /** A temp file is left behind only when its delete failed. */
  lemma NothingLeftWhenDeleteSucceeds(check: Outcome, env: UploadEnv)
    requires env.deleted || check.Fail? || env.tempName.None?
    ensures LeftBehind(check, env) == {}
  {
  }

  /** With one derived object, the compressed copy is also the thumbnail. */
  lemma SingleObjectIsOwnThumbnail(host: string, prefix: string, name: string, env: UploadEnv, scale: Scale)
    requires env.put.Some? && |env.put.value.objects| == 1
    requires StoredResult(host, prefix, name, env, scale).Ok?
    ensures var v := StoredResult(host, prefix, name, env, scale).value; v.thumbnailUrl == Some(v.url)
  {
  }

  /** Without derived objects the url is the host and the generated key,
      whose main name is {date}_{digits} and whose suffix is the original
      name's suffix. */
  lemma OriginalUrlKeepsOnlyTheSuffix(host: string, prefix: string, name: string, env: UploadEnv, scale: Scale)
    requires WellFormedEnv(env)
    requires env.put.Some? && |env.put.value.objects| == 0
    requires StoredResult(host, prefix, name, env, scale).Ok?
    ensures var key := StoredResult(host, prefix, name, env, scale).value.url[|host| + 1..];
      && FileNames.MainName(key) == env.date + "_" + env.digits
      && FileNames.Suffix(key) == FileNames.Suffix(name)
  {
    var key := UploadPath(prefix, env.date, env.digits, name);
    var url := StoredResult(host, prefix, name, env, scale).value.url;
    assert url == host + "/" + key;
    assert url[|host| + 1..] == key;
    UploadPathParts(prefix, env, name);
  }
}
