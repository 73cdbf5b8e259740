/** The older upload service (FileManager, deprecated in favour of the
    template): a multipart upload and a URL upload, both of which always
    build the result from the original image. Its URL validation is the
    same sequence of checks as UrlUpload.ValidPicture and is modelled by it. */
module FileManager {
  import opened Common
  import FileNames
  import opened UploadTypes
  import TempFiles
  import Cos
  import UrlUpload

  const AllowedSuffixes: seq<string> := ["png", "jpg", "jpeg", "webp"]
  const MaxFileBytes: int := 2 * 1024 * 1024

  /** validPicture(MultipartFile): present, at most 2 MiB, and a suffix that is
      exactly one of the allowed ones (the comparison is case-sensitive, and a
      missing name has no suffix). */
  function ValidMultipart(file: Option<MultipartFile>): (r: Outcome)
    ensures file.None? ==> r == Fails(ParamsError, "文件不能为空")
    ensures file.Some? && file.value.size > MaxFileBytes ==> r == Fails(ParamsError, "文件大小不能超过 2M")
    ensures file.Some? && file.value.size <= MaxFileBytes
            && (file.value.originalFilename.None?
                || FileNames.Suffix(file.value.originalFilename.value) !in AllowedSuffixes)
            ==> r == Fails(ParamsError, "文件类型错误")
    ensures r == Pass <==>
      file.Some? && file.value.size <= MaxFileBytes && file.value.originalFilename.Some?
      && FileNames.Suffix(file.value.originalFilename.value) in AllowedSuffixes
  {
    if file.None? then Fails(ParamsError, "文件不能为空")
    else if file.value.size > MaxFileBytes then Fails(ParamsError, "文件大小不能超过 2M")
    else
      match file.value.originalFilename
      case None => Fails(ParamsError, "文件类型错误")
      case Some(name) =>
        if FileNames.Suffix(name) in AllowedSuffixes then Pass else Fails(ParamsError, "文件类型错误")
  }

  /** What follows validation in both uploads: any failure in the try block
      is the one system error; otherwise the result of the original image. */
  function StoredOriginal(host: string, uploadPath: string, originalFilename: string, env: UploadEnv, scale: Scale)
    : (r: Result<UploadPictureResult>)
    ensures r.Err? ==> r.error == Error(SystemError, "上传失败")
    ensures r.Ok? <==>
      env.tempName.Some? && env.fetched && env.put.Some?
      && scale(env.put.value.originalInfo.width, env.put.value.originalInfo.height).Some?
    ensures r.Ok? ==>
      var info := env.put.value.originalInfo;
      && r.value.url == host + "/" + uploadPath
      && r.value.thumbnailUrl == None
      && r.value.picName == FileNames.MainName(originalFilename)
      && r.value.picSize == env.localSize
      && r.value.picWidth == info.width && r.value.picHeight == info.height
      && r.value.picFormat == info.format
      && Some(r.value.picScale) == scale(info.width, info.height)
  {
    if env.tempName.None? || !env.fetched || env.put.None? then Err(Error(SystemError, "上传失败"))
    else
      var info := env.put.value.originalInfo;
      match scale(info.width, info.height)
      case None => Err(Error(SystemError, "上传失败"))
      case Some(picScale) =>
        Ok(ResultFromOriginal(host, info, uploadPath, originalFilename, env.localSize, picScale))
  }

  /** The key uploadPictureByUrl builds: the suffix is taken from the URL's
      main name, that is, after the extension was already cut off. */
  function UrlUploadPathAsWritten(prefix: string, date: string, digits: string, fileUrl: string): string {
    UploadPath(prefix, date, digits, FileNames.MainName(fileUrl))
  }

  /** The key the template builds for the same URL: the suffix of its last
      path segment. */
  function UrlUploadPath(prefix: string, date: string, digits: string, fileUrl: string): string {
    UploadPath(prefix, date, digits, FileNames.GetName(fileUrl))
  }

  /** For a URL ending in {main}.{ext} with no dot in main, the key
      uploadPictureByUrl builds has an empty suffix: it ends in a dot and the
      extension is lost (for https://example.com/cat.png the key ends "_{digits}."). */
  lemma UrlUploadPathLosesExtension(prefix: string, env: UploadEnv, dir: string, main: string, ext: string)
    requires WellFormedEnv(env)
    requires FileNames.NoSeparator(main) && FileNames.NoDot(main)
    requires FileNames.NoSeparator(ext) && FileNames.NoDot(ext) && ext != ""
    ensures UrlUploadPathAsWritten(prefix, env.date, env.digits, dir + "/" + main + "." + ext)
            == prefix + "/" + env.date + "_" + env.digits + "."
    ensures FileNames.Suffix(UrlUploadPathAsWritten(prefix, env.date, env.digits, dir + "/" + main + "." + ext)) == ""
  {
    var url := dir + "/" + main + "." + ext;
    LastSegmentOfUrl(dir, main, ext);
    assert FileNames.MainName(url) == main;
    FileNames.LastDotNone(main);
    assert FileNames.Suffix(main) == "";
    UploadPathParts(prefix, env, main);
  }

  /** The template's key for the same URL keeps the extension. */
  lemma UrlUploadPathKeepsExtension(prefix: string, env: UploadEnv, dir: string, main: string, ext: string)
    requires WellFormedEnv(env)
    requires FileNames.NoSeparator(main) && FileNames.NoSeparator(ext) && FileNames.NoDot(ext)
    ensures FileNames.Suffix(UrlUploadPath(prefix, env.date, env.digits, dir + "/" + main + "." + ext)) == ext
  {
    LastSegmentOfUrl(dir, main, ext);
    UploadPathParts(prefix, env, main + "." + ext);
  }

  lemma LastSegmentOfUrl(dir: string, main: string, ext: string)
    requires FileNames.NoSeparator(main) && FileNames.NoSeparator(ext) && FileNames.NoDot(ext)
    ensures FileNames.GetName(dir + "/" + main + "." + ext) == main + "." + ext
    ensures FileNames.MainName(dir + "/" + main + "." + ext) == main
    ensures FileNames.Suffix(main + "." + ext) == ext
  {
    var name := main + "." + ext;
    FileNames.NoSeparatorConcat(main, ".");
    FileNames.NoSeparatorConcat(main + ".", ext);
    UrlIsJoin(dir, main, ext);
    FileNames.GetNameOfJoin(dir, name);
    FileNames.NameSplitsAtLastDot(main, ext);
    UploadPathMainName(dir, main, ext);
  }

  lemma UrlIsJoin(dir: string, main: string, ext: string)
    ensures dir + "/" + main + "." + ext == dir + "/" + (main + "." + ext)
  {
  }

  class FileManagerService {
    const tmp: TempFiles.TempDir
    const host: string
    const bucket: string

    constructor (tmp: TempFiles.TempDir, host: string, bucket: string)
      ensures this.tmp == tmp && this.host == host && this.bucket == bucket
    {
      this.tmp := tmp;
      this.host := host;
      this.bucket := bucket;
    }

    /** uploadPicture(MultipartFile): env.fetched is whether transferTo succeeded. */
    method UploadPicture(file: Option<MultipartFile>, prefix: string, env: UploadEnv, scale: Scale)
      returns (r: Result<UploadPictureResult>, sent: Option<Cos.PutObjectRequest>)
      requires env.tempName.Some? ==> env.tempName.value !in tmp.files
      modifies tmp
      ensures ValidMultipart(file).Fail? ==>
        r == Err(ValidMultipart(file).error) && tmp.files == old(tmp.files) && tmp.errorLog == old(tmp.errorLog)
      ensures sent.Some? <==> ValidMultipart(file).Pass? && env.tempName.Some? && env.fetched
      ensures sent.Some? ==>
        && sent.value.bucket == bucket
        && sent.value.key == UploadPath(prefix, env.date, env.digits, file.value.originalFilename.value)
        && (|sent.value.picOperations.rules| == 2 <==> env.localSize > 2048)
      ensures ValidMultipart(file).Pass? ==>
        var name := file.value.originalFilename.value;
        && r == StoredOriginal(host, UploadPath(prefix, env.date, env.digits, name), name, env, scale)
        && tmp.files == old(tmp.files) + (if env.tempName.Some? && !env.deleted then {env.tempName.value} else {})
        && tmp.errorLog == old(tmp.errorLog)
             + (if env.tempName.Some? && !env.deleted then [TempFiles.DeleteErrorMessage + env.tempName.value] else [])
    {
      var check := ValidMultipart(file);
      sent := None;
      if check.Fail? {
        return Err(check.error), sent;
      }
      var name := file.value.originalFilename.value;
      var uploadPath := UploadPath(prefix, env.date, env.digits, name);
      var temp := tmp.CreateTempFile(env.tempName);
      r := StoredOriginal(host, uploadPath, name, env, scale);
      if temp.Some? && env.fetched {
        var request := Cos.PutPictureObject(bucket, uploadPath, env.localSize);
        sent := Some(request);
      }
      tmp.DeleteTempFile(temp, env.deleted);
    }

    /** uploadPictureByUrl: env.fetched is whether the download succeeded.
        The original name is the URL's main name, and the result's name is
        the main name of that. */
    method UploadPictureByUrl(fileUrl: Option<string>, wellFormed: string -> bool, head: UrlUpload.HeadOutcome,
                              prefix: string, env: UploadEnv, scale: Scale)
      returns (r: Result<UploadPictureResult>, sent: Option<Cos.PutObjectRequest>)
      requires env.tempName.Some? ==> env.tempName.value !in tmp.files
      modifies tmp
      ensures UrlUpload.ValidPicture(fileUrl, wellFormed, head).Fail? ==>
        r == Err(UrlUpload.ValidPicture(fileUrl, wellFormed, head).error)
        && tmp.files == old(tmp.files) && tmp.errorLog == old(tmp.errorLog)
      ensures sent.Some? <==> UrlUpload.ValidPicture(fileUrl, wellFormed, head).Pass? && env.tempName.Some? && env.fetched
      ensures sent.Some? ==>
        && sent.value.bucket == bucket
        && sent.value.key == UploadPath(prefix, env.date, env.digits, FileNames.MainName(fileUrl.value))
        && (|sent.value.picOperations.rules| == 2 <==> env.localSize > 2048)
      ensures UrlUpload.ValidPicture(fileUrl, wellFormed, head).Pass? ==>
        && r == StoredOriginal(host, UrlUploadPathAsWritten(prefix, env.date, env.digits, fileUrl.value),
                               FileNames.MainName(fileUrl.value), env, scale)
        && tmp.files == old(tmp.files) + (if env.tempName.Some? && !env.deleted then {env.tempName.value} else {})
        && tmp.errorLog == old(tmp.errorLog)
             + (if env.tempName.Some? && !env.deleted then [TempFiles.DeleteErrorMessage + env.tempName.value] else [])
    {
      var check := UrlUpload.ValidPicture(fileUrl, wellFormed, head);
      sent := None;
      if check.Fail? {
        return Err(check.error), sent;
      }
      var originalFilename := FileNames.MainName(fileUrl.value);
      var uploadPath := UploadPath(prefix, env.date, env.digits, originalFilename);
      var temp := tmp.CreateTempFile(env.tempName);
      r := StoredOriginal(host, uploadPath, originalFilename, env, scale);
      if temp.Some? && env.fetched {
        var request := Cos.PutPictureObject(bucket, uploadPath, env.localSize);
        sent := Some(request);
      }
      tmp.DeleteTempFile(temp, env.deleted);
    }
  }
}
