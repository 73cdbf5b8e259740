/** The checks a picture URL must pass before it is downloaded, and the
    file name taken from it (UrlPictureUpload). The HEAD request is an input:
    either it failed, or it returned a status and two optional headers. */
module UrlUpload {
  import opened Common
  import FileNames

  datatype HeadResponse = HeadResponse(status: int, contentType: Option<string>, contentLength: Option<string>)

  datatype HeadOutcome = HeadFailed | Responded(response: HeadResponse)

  const HttpOk: int := 200
  const OneMegabyte: int := 1024 * 1024
  const MaxPictureBytes: int := 2 * OneMegabyte
  const AllowedContentTypes: seq<string> := ["image/jpeg", "image/jpg", "image/png", "image/webp"]

  /** An absent or blank Content-Type is not checked; a present one must be
      an allowed image type once lower-cased. */
  predicate ContentTypeAccepted(contentType: Option<string>) {
    Blank(contentType) || ToLower(contentType.value) in AllowedContentTypes
  }

  /** An absent or blank Content-Length is not checked; a present one must
      parse as a long of at most 2 MiB. */
  predicate ContentLengthAccepted(contentLength: Option<string>) {
    Blank(contentLength)
    || (ParseLong(contentLength.value).Some? && ParseLong(contentLength.value).value <= MaxPictureBytes)
  }

  predicate HasHttpScheme(url: string) {
    StartsWith(url, "http://") || StartsWith(url, "https://")
  }

  /** The header checks run on a 200 response: type first, then length. */
  function HeaderChecks(resp: HeadResponse): (r: Outcome)
    ensures r == Pass <==> ContentTypeAccepted(resp.contentType) && ContentLengthAccepted(resp.contentLength)
    ensures !ContentTypeAccepted(resp.contentType) ==> r == Fails(ParamsError, "文件类型错误")
    ensures r.Fail? ==> r.error.code == ParamsError
  {
    if !Blank(resp.contentType) && ToLower(resp.contentType.value) !in AllowedContentTypes then
      Fails(ParamsError, "文件类型错误")
    else if !Blank(resp.contentLength) then
      match ParseLong(resp.contentLength.value)
      case None => Fails(ParamsError, "文件大小格式错误")
      case Some(n) => if n > MaxPictureBytes then Fails(ParamsError, "文件大小不能超过2M") else Pass
    else Pass
  }

  /** validPicture. wellFormed says whether java.net.URL accepts the text.
      A HEAD request that throws is not caught here and reaches the caller. */
  function ValidPicture(fileUrl: Option<string>, wellFormed: string -> bool, head: HeadOutcome): (r: Outcome)
    ensures Blank(fileUrl) ==> r == Fails(ParamsError, "文件地址为空")
    ensures !Blank(fileUrl) && !wellFormed(fileUrl.value) ==> r == Fails(ParamsError, "文件地址格式错误")
    ensures !Blank(fileUrl) && wellFormed(fileUrl.value) && !HasHttpScheme(fileUrl.value) ==>
      r == Fails(ParamsError, "仅支持HTTP 或 HTTPS 协议的文件地址")
    ensures r == Pass <==>
      !Blank(fileUrl) && wellFormed(fileUrl.value) && HasHttpScheme(fileUrl.value) && head.Responded?
      && (head.response.status != HttpOk
          || (ContentTypeAccepted(head.response.contentType)
              && ContentLengthAccepted(head.response.contentLength)))
    ensures r.Fail? && r.error.code != ParamsError ==> head.HeadFailed?
  {
    if Blank(fileUrl) then Fails(ParamsError, "文件地址为空")
    else if !wellFormed(fileUrl.value) then Fails(ParamsError, "文件地址格式错误")
    else if !StartsWith(fileUrl.value, "http://") && !StartsWith(fileUrl.value, "https://") then
      Fails(ParamsError, "仅支持HTTP 或 HTTPS 协议的文件地址")
    else
      match head
      case HeadFailed => Fails(Uncaught, "HEAD request failed")
      case Responded(resp) =>
        if resp.status != HttpOk then Pass else HeaderChecks(resp)
  }

  /** getOriginalFilename: the last path segment of the URL. */
  function OriginalFilename(fileUrl: string): (r: string)
    ensures FileNames.NoSeparator(r)
    ensures forall dir, name :: fileUrl == dir + "/" + name && name != [] && FileNames.NoSeparator(name) ==> r == name
  {
    forall dir, name | fileUrl == dir + "/" + name && name != [] && FileNames.NoSeparator(name)
      ensures FileNames.GetName(fileUrl) == name
    {
      FileNames.GetNameOfJoin(dir, name);
    }
    FileNames.GetName(fileUrl)
  }

  /** A response other than 200 skips every header check. */
  lemma NonOkStatusSkipsHeaders(url: string, wellFormed: string -> bool, resp: HeadResponse)
    requires !Blank(Some(url)) && wellFormed(url) && HasHttpScheme(url)
    requires resp.status != HttpOk
    ensures ValidPicture(Some(url), wellFormed, Responded(resp)) == Pass
  {
  }

  /** The type check comes first: a wrong type is reported even when the
      length is also wrong. */
  lemma TypeCheckedBeforeLength(url: string, wellFormed: string -> bool, resp: HeadResponse)
    requires !Blank(Some(url)) && wellFormed(url) && HasHttpScheme(url) && resp.status == HttpOk
    requires !ContentTypeAccepted(resp.contentType)
    ensures ValidPicture(Some(url), wellFormed, Responded(resp)) == Fails(ParamsError, "文件类型错误")
  {
  }

  /** A 200 response whose Content-Length is a number above 2 MiB is refused
      as too large, whatever the type header says as long as it is allowed. */
  lemma OversizeLengthRefused(url: string, wellFormed: string -> bool, resp: HeadResponse, n: nat)
    requires !Blank(Some(url)) && wellFormed(url) && HasHttpScheme(url) && resp.status == HttpOk
    requires ContentTypeAccepted(resp.contentType)
    requires MaxPictureBytes < n <= LongMax && resp.contentLength == Some(NatToString(n))
    ensures ValidPicture(Some(url), wellFormed, Responded(resp)) == Fails(ParamsError, "文件大小不能超过2M")
  {
    ParseLongOfNatToString(n);
    assert !Blank(resp.contentLength) by {
      assert IsDigit(NatToString(n)[0]);
    }
  }
}
