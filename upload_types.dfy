/** What the upload paths share: the inputs taken from the environment, the
    object store's reply, the result record, the storage-key format and the
    result built from the original image (UploadPictureResult and the parts
    of PictureUploadTemplate and FileManager that are the same). */
module UploadTypes {
  import opened Common
  import FileNames

  /** An uploaded multipart file: its size in bytes and its client-side name. */
  datatype MultipartFile = MultipartFile(size: int, originalFilename: Option<string>)

  datatype ImageInfo = ImageInfo(width: int, height: int, format: string)

  /** A derived object the store produced from a processing rule. */
  datatype CIObject = CIObject(key: string, size: int, width: int, height: int, format: string)

  /** The store's reply to a picture upload: the original's info and the
      derived objects, in rule order. */
  datatype PutResult = PutResult(originalInfo: ImageInfo, objects: seq<CIObject>)

  datatype UploadPictureResult = UploadPictureResult(
    url: string,
    thumbnailUrl: Option<string>,
    picName: string,
    picSize: int,
    picWidth: int,
    picHeight: int,
    picScale: real,
    picFormat: string)

  /** What one upload takes from the clock, the random source, the local
      disk and the network. */
  datatype UploadEnv = UploadEnv(
    date: string,            // DateUtil.formatDate(new Date()), yyyy-MM-dd
    digits: string,          // RandomUtil.randomNumbers(16)
    tempName: Option<string>, // the file File.createTempFile made; None when it threw
    fetched: bool,           // the transfer or download into the temp file succeeded
    localSize: int,          // FileUtil.size of the temp file
    put: Option<PutResult>,  // the store's reply; None when the call threw
    deleted: bool)           // what File.delete returned

  /** picScale is NumberUtil.round(height * 1.0 / width, 2): the rounding is
      a parameter, applied to (width, height), and None when it throws (as it
      does for the infinite or undefined quotient of a zero width). */
  type Scale = (int, int) -> Option<real>

  /** The environment's own guarantees: sixteen decimal digits and a date
      made of digits and dashes. */
  predicate WellFormedEnv(env: UploadEnv) {
    |env.digits| == 16 && AllDigits(env.digits)
    && forall i :: 0 <= i < |env.date| ==> IsDigit(env.date[i]) || env.date[i] == '-'
  }

  /** The storage key: {prefix}/{date}_{digits}.{suffix of the original name}. */
  function UploadPath(prefix: string, date: string, digits: string, originalFilename: string): (r: string)
    ensures |prefix| < |r| && r[..|prefix| + 1] == prefix + "/"
  {
    var r := prefix + "/" + date + "_" + digits + "." + FileNames.Suffix(originalFilename);
    assert r == (prefix + "/") + (date + "_" + digits + "." + FileNames.Suffix(originalFilename));
    r
  }

  /** The result built from the original image: the url of the stored key,
      the size of the local copy, no thumbnail. */
  function ResultFromOriginal(host: string, info: ImageInfo, uploadPath: string, originalFilename: string,
                              localSize: int, picScale: real): UploadPictureResult
  {
    UploadPictureResult(
      host + "/" + uploadPath, None, FileNames.MainName(originalFilename), localSize,
      info.width, info.height, picScale, info.format)
  }

  /** The key depends on the original name only through its suffix: two
      names with the same extension give the same key. */
  lemma UploadPathIgnoresMainName(prefix: string, date: string, digits: string, a: string, b: string)
    requires FileNames.Suffix(a) == FileNames.Suffix(b)
    ensures UploadPath(prefix, date, digits, a) == UploadPath(prefix, date, digits, b)
  {
  }

  lemma DatePartsHaveNoSeparatorOrDot(env: UploadEnv)
    requires WellFormedEnv(env)
    ensures FileNames.NoSeparator(env.date + "_" + env.digits)
    ensures FileNames.NoDot(env.digits) && FileNames.NoSeparator(env.digits)
  {
    var s := env.date + "_" + env.digits;
    forall i | 0 <= i < |s| ensures !FileNames.IsSeparator(s[i]) {
      if i < |env.date| { assert s[i] == env.date[i]; }
      else if i > |env.date| { assert s[i] == env.digits[i - |env.date| - 1]; }
    }
  }

  lemma UploadPathMainName(prefix: string, main: string, ext: string)
    requires FileNames.NoSeparator(main) && FileNames.NoSeparator(ext) && FileNames.NoDot(ext)
    ensures FileNames.MainName(prefix + "/" + (main + "." + ext)) == main
  {
    var name := main + "." + ext;
    FileNames.NoSeparatorConcat(main, ".");
    FileNames.NoSeparatorConcat(main + ".", ext);
    FileNames.GetNameOfJoin(prefix, name);
    FileNames.NameSplitsAtLastDot(main, ext);
  }

  lemma UploadPathSuffix(dir: string, ext: string)
    requires FileNames.NoSeparator(ext) && FileNames.NoDot(ext)
    ensures FileNames.Suffix(dir + "." + ext) == ext
  {
    FileNames.LastDotOfJoin(dir, ext);
    assert (dir + "." + ext)[|dir| + 1..] == ext;
  }

  /** The last segment of the key is {date}_{digits}.{suffix}: its main name
      is {date}_{digits} and its suffix is the original name's suffix, so
      nothing of the original main name is kept. */
  lemma UploadPathParts(prefix: string, env: UploadEnv, originalFilename: string)
    requires WellFormedEnv(env)
    ensures var key := UploadPath(prefix, env.date, env.digits, originalFilename);
      && FileNames.MainName(key) == env.date + "_" + env.digits
      && FileNames.Suffix(key) == FileNames.Suffix(originalFilename)
  {
    var ext := FileNames.Suffix(originalFilename);
    var main := env.date + "_" + env.digits;
    DatePartsHaveNoSeparatorOrDot(env);
    KeyParts(prefix, main, ext);
    KeyIsJoin(prefix, env.date, env.digits, ext);
  }

  lemma KeyIsJoin(prefix: string, date: string, digits: string, ext: string)
    ensures prefix + "/" + date + "_" + digits + "." + ext == prefix + "/" + (date + "_" + digits) + "." + ext
  {
  }

  lemma KeyParts(prefix: string, main: string, ext: string)
    requires FileNames.NoSeparator(main) && FileNames.NoSeparator(ext) && FileNames.NoDot(ext)
    ensures FileNames.MainName(prefix + "/" + main + "." + ext) == main
    ensures FileNames.Suffix(prefix + "/" + main + "." + ext) == ext
  {
    assert prefix + "/" + main + "." + ext == prefix + "/" + (main + "." + ext);
    UploadPathMainName(prefix, main, ext);
    UploadPathSuffix(prefix + "/" + main, ext);
  }
}
