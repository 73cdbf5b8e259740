/** The picture service (PictureServiceImpl): the picture table, the record
    an upload stores, the review state machine, the two-tier cached page
    read, the batch fetch loop, the blob-cleanup decision and the page view. */
module Pictures {
  import opened Common
  import Users
  import ReviewStatuses
  import opened UploadTypes
  import UploadTemplate
  import UrlUpload
  import TempFiles

  /** A row of the picture table; every column may be null. Times are
      instants given by the caller. */
  datatype Picture = Picture(
    id: Option<int>,
    url: Option<string>,
    thumbnailUrl: Option<string>,
    name: Option<string>,
    introduction: Option<string>,
    category: Option<string>,
    tags: Option<string>,
    picSize: Option<int>,
    picWidth: Option<int>,
    picHeight: Option<int>,
    picScale: Option<real>,
    picFormat: Option<string>,
    userId: Option<int>,
    editTime: Option<int>,
    reviewStatus: Option<int>,
    reviewMessage: Option<string>,
    reviewerId: Option<int>,
    reviewTime: Option<int>)

  /** new Picture(): every column null. */
  const EmptyPicture: Picture :=
    Picture(None, None, None, None, None, None, None, None, None, None, None, None, None, None, None, None, None, None)

  /** updateById: every non-null column of the update overwrites the stored
      one; null columns leave the stored value in place. */
  function Merge(stored: Picture, update: Picture): Picture {
    Picture(
      Pick(stored.id, update.id), Pick(stored.url, update.url), Pick(stored.thumbnailUrl, update.thumbnailUrl),
      Pick(stored.name, update.name), Pick(stored.introduction, update.introduction),
      Pick(stored.category, update.category), Pick(stored.tags, update.tags), Pick(stored.picSize, update.picSize),
      Pick(stored.picWidth, update.picWidth), Pick(stored.picHeight, update.picHeight),
      Pick(stored.picScale, update.picScale), Pick(stored.picFormat, update.picFormat),
      Pick(stored.userId, update.userId), Pick(stored.editTime, update.editTime),
      Pick(stored.reviewStatus, update.reviewStatus), Pick(stored.reviewMessage, update.reviewMessage),
      Pick(stored.reviewerId, update.reviewerId), Pick(stored.reviewTime, update.reviewTime))
  }

  /** Applying the same update twice is applying it once; an all-null
      update changes nothing. */
  lemma MergeIdempotent(stored: Picture, update: Picture)
    ensures Merge(Merge(stored, update), update) == Merge(stored, update)
    ensures Merge(stored, EmptyPicture) == stored
  {
  }

  /** saveOrUpdate: a record with an id that exists is merged into it, one
      with an id that does not exist is inserted under it, and one without
      an id is inserted under the id the store assigns. */
  function SaveOrUpdate(store: map<int, Picture>, p: Picture, newId: int): (r: map<int, Picture>)
    ensures p.id.Some? && p.id.value in store ==> r == store[p.id.value := Merge(store[p.id.value], p)]
    ensures p.id.Some? && p.id.value !in store ==> r == store[p.id.value := p]
    ensures p.id.None? ==> r == store[newId := p.(id := Some(newId))]
  {
    match p.id
    case Some(id) => if id in store then store[id := Merge(store[id], p)] else store[id := p]
    case None => store[newId := p.(id := Some(newId))]
  }

  /** Every row is stored under its own id. */
  ghost predicate IdsMatchKeys(store: map<int, Picture>) {
    forall k :: k in store ==> store[k].id == Some(k)
  }

  /** saveOrUpdate keeps every row under its own id and touches one key. */
  lemma SaveOrUpdateKeepsIds(store: map<int, Picture>, p: Picture, newId: int)
    requires IdsMatchKeys(store)
    ensures IdsMatchKeys(SaveOrUpdate(store, p, newId))
    ensures SaveOrUpdate(store, p, newId).Keys == store.Keys + {if p.id.Some? then p.id.value else newId}
  {
    if p.id.Some? && p.id.value in store {
      assert Merge(store[p.id.value], p).id == Some(p.id.value);
    }
  }

  // ---------------------------------------------------------------- validPicture

  const MaxUrlLength: nat := 1024
  const MaxIntroductionLength: nat := 800

  /** validPicture: a picture and its id must be present; a url or an
      introduction that is given must not be too long. */
  function ValidPicture(p: Option<Picture>): (r: Outcome)
    ensures p.None? ==> r == Fails(ParamsError, "图片信息不能为空")
    ensures p.Some? && p.value.id.None? ==> r == Fails(ParamsError, "图片id不能为空")
    ensures p.Some? && p.value.id.Some? && !Blank(p.value.url) && JavaLength(p.value.url.value) > MaxUrlLength
            ==> r == Fails(ParamsError, "图片url过长")
    ensures r == Pass <==>
      p.Some? && p.value.id.Some?
      && (Blank(p.value.url) || JavaLength(p.value.url.value) <= MaxUrlLength)
      && (Blank(p.value.introduction) || JavaLength(p.value.introduction.value) <= MaxIntroductionLength)
    ensures r.Fail? ==> r.error.code == ParamsError
  {
    if p.None? then Fails(ParamsError, "图片信息不能为空")
    else if p.value.id.None? then Fails(ParamsError, "图片id不能为空")
    else if !Blank(p.value.url) && JavaLength(p.value.url.value) > MaxUrlLength then
      Fails(ParamsError, "图片url过长")
    else if !Blank(p.value.introduction) && JavaLength(p.value.introduction.value) > MaxIntroductionLength then
      Fails(ParamsError, "简介过长")
    else Pass
  }

  // ---------------------------------------------------------------- review parameters

  const AutoPassMessage: string := "管理员自动过审"
  const AwaitingReviewMessage: string := "待管理员审核"

  /** fillReviewParams: an administrator's picture passes at once, reviewed
      by that administrator now; anyone else's waits for review with no
      reviewer and no review time. No other column changes. */
  function FillReviewParams(p: Picture, loginUser: Users.User, now: int): (r: Picture)
    ensures Users.IsAdmin(Some(loginUser)) ==>
      && r.reviewStatus == Some(ReviewStatuses.Value(ReviewStatuses.Passed))
      && r.reviewMessage == Some(AutoPassMessage)
      && r.reviewerId == Some(loginUser.id) && r.reviewTime == Some(now)
    ensures !Users.IsAdmin(Some(loginUser)) ==>
      && r.reviewStatus == Some(ReviewStatuses.Value(ReviewStatuses.Reviewing))
      && r.reviewMessage == Some(AwaitingReviewMessage)
      && r.reviewerId == None && r.reviewTime == None
    ensures r.(reviewStatus := p.reviewStatus, reviewMessage := p.reviewMessage,
               reviewerId := p.reviewerId, reviewTime := p.reviewTime) == p
  {
    if Users.IsAdmin(Some(loginUser)) then
      p.(reviewStatus := Some(ReviewStatuses.Value(ReviewStatuses.Passed)), reviewMessage := Some(AutoPassMessage),
         reviewerId := Some(loginUser.id), reviewTime := Some(now))
    else
      p.(reviewStatus := Some(ReviewStatuses.Value(ReviewStatuses.Reviewing)),
         reviewMessage := Some(AwaitingReviewMessage), reviewerId := None, reviewTime := None)
  }

  // ---------------------------------------------------------------- uploadPicture

  datatype PictureUploadRequest = PictureUploadRequest(id: Option<int>, fileUrl: Option<string>, picName: Option<string>)

  /** The input source: a String selects the URL upload; anything else (the
      multipart file, or a null URL) selects the file upload. */
  datatype InputSource = UrlSource(url: string) | FileSource

  /** The file upload's validation verdict and original name (its class,
      FilePictureUpload, is not part of this model). */
  datatype FileHooks = FileHooks(check: Outcome, originalFilename: string)

  function SourceCheck(source: InputSource, file: FileHooks, wellFormed: string -> bool,
                       head: UrlUpload.HeadOutcome): Outcome
  {
    match source
    case UrlSource(url) => UrlUpload.ValidPicture(Some(url), wellFormed, head)
    case FileSource => file.check
  }

  function SourceName(source: InputSource, file: FileHooks): string {
    match source
    case UrlSource(url) => UrlUpload.OriginalFilename(url)
    case FileSource => file.originalFilename
  }

  function RequestId(req: Option<PictureUploadRequest>): Option<int> {
    if req.Some? then req.value.id else None
  }

  /** The owner-or-administrator check on a stored picture: it must exist,
      and the caller must own it or be an administrator. A stored picture
      without an owner makes the comparison throw. */
  function OwnerGuard(pictures: map<int, Picture>, id: int, user: Users.User, notFound: string): (r: Outcome)
    ensures id !in pictures ==> r == Fails(NotFoundError, notFound)
    ensures r == Pass <==>
      id in pictures && pictures[id].userId.Some?
      && (pictures[id].userId.value == user.id || Users.IsAdmin(Some(user)))
    ensures r.Fail? && r.error.code == Uncaught ==> id in pictures && pictures[id].userId.None?
    ensures r.Fail? ==> r.error.code in {NotFoundError, Uncaught, NoAuthError}
  {
    if id !in pictures then Fails(NotFoundError, notFound)
    else if pictures[id].userId.None? then Fails(Uncaught, "NullPointerException")
    else if pictures[id].userId.value != user.id && !Users.IsAdmin(Some(user)) then Fails(NoAuthError, "")
    else Pass
  }

  /** The checks before the upload: a caller, and for an update an existing
      picture that the caller owns or may administer. */
  function UploadGuard(pictures: map<int, Picture>, loginUser: Option<Users.User>, req: Option<PictureUploadRequest>)
    : (r: Outcome)
    ensures loginUser.None? ==> r == Fails(NoAuthError, "")
    ensures loginUser.Some? && RequestId(req).None? ==> r == Pass
    ensures loginUser.Some? && RequestId(req).Some? && RequestId(req).value !in pictures
            ==> r == Fails(NotFoundError, "图片不存在")
    ensures r == Pass <==>
      loginUser.Some?
      && (RequestId(req).Some? ==>
            var id := RequestId(req).value;
            && id in pictures && pictures[id].userId.Some?
            && (pictures[id].userId.value == loginUser.value.id || Users.IsAdmin(loginUser)))
    ensures r.Fail? && r.error.code == Uncaught ==> pictures[RequestId(req).value].userId.None?
  {
    if loginUser.None? then Fails(NoAuthError, "")
    else match RequestId(req)
      case None => Pass
      case Some(id) => OwnerGuard(pictures, id, loginUser.value, "图片不存在")
  }

  /** Without a request id the guard looks at no stored picture. */
  lemma NewUploadIgnoresStore(p1: map<int, Picture>, p2: map<int, Picture>, loginUser: Option<Users.User>,
                              req: Option<PictureUploadRequest>)
    requires RequestId(req).None?
    ensures UploadGuard(p1, loginUser, req) == UploadGuard(p2, loginUser, req)
  {
  }

  /** Uploads are stored under a directory named after the uploader. */
  function UploadPrefix(userId: int): string {
    "public/" + IntToString(userId)
  }

  /** Different users upload into different directories. */
  lemma UploadPrefixInjective(a: int, b: int)
    requires a != b
    ensures UploadPrefix(a) != UploadPrefix(b)
  {
    IntToStringInjective(a, b);
    assert IntToString(a) == UploadPrefix(a)[7..];
    assert IntToString(b) == UploadPrefix(b)[7..];
  }

  /** The record uploadPicture builds from the upload result. */
  function NewRecord(result: UploadPictureResult, req: Option<PictureUploadRequest>, loginUser: Users.User, now: int)
    : (r: Picture)
    ensures r.userId == Some(loginUser.id)
    ensures req.Some? && !Blank(req.value.picName) ==> r.name == req.value.picName
    ensures !(req.Some? && !Blank(req.value.picName)) ==> r.name == Some(result.picName)
    ensures r.id == RequestId(req)
    ensures r.editTime == (if RequestId(req).Some? then Some(now) else None)
    ensures r.url == Some(result.url) && r.thumbnailUrl == result.thumbnailUrl
    ensures r.picSize == Some(result.picSize) && r.picScale == Some(result.picScale)
    ensures r.picWidth == Some(result.picWidth) && r.picHeight == Some(result.picHeight)
    ensures r.picFormat == Some(result.picFormat)
    ensures r.introduction == None && r.category == None && r.tags == None
    ensures r == FillReviewParams(r, loginUser, now)
  {
    var picName := if req.Some? && !Blank(req.value.picName) then req.value.picName.value else result.picName;
    var picture := EmptyPicture.(
      url := Some(result.url), thumbnailUrl := result.thumbnailUrl, name := Some(picName),
      picSize := Some(result.picSize), picWidth := Some(result.picWidth), picHeight := Some(result.picHeight),
      picScale := Some(result.picScale), picFormat := Some(result.picFormat), userId := Some(loginUser.id));
    var reviewed := FillReviewParams(picture, loginUser, now);
    match RequestId(req)
    case Some(id) => reviewed.(id := Some(id), editTime := Some(now))
    case None => reviewed
  }

  /** A re-upload by a non-administrator over a picture an administrator had
      reviewed sets the status back to reviewing but, since null columns are
      not written, keeps the old reviewer and review time. */
  lemma ReuploadKeepsStaleReviewer(stored: Picture, result: UploadPictureResult, req: PictureUploadRequest,
                                   loginUser: Users.User, now: int)
    requires req.id.Some? && !Users.IsAdmin(Some(loginUser))
    requires stored.reviewerId.Some? && stored.reviewTime.Some?
    ensures var merged := Merge(stored, NewRecord(result, Some(req), loginUser, now));
      && merged.reviewStatus == Some(ReviewStatuses.Value(ReviewStatuses.Reviewing))
      && merged.reviewerId == stored.reviewerId && merged.reviewTime == stored.reviewTime
  {
    var r := NewRecord(result, Some(req), loginUser, now);
    assert r.reviewerId == None && r.reviewTime == None;
  }

  // ---------------------------------------------------------------- doPictureReview

  datatype PictureReviewRequest = PictureReviewRequest(id: Option<int>, reviewStatus: Option<int>,
                                                       reviewMessage: Option<string>)

  /** The checks of doPictureReview, in source order: a request naming a
      picture and a final status, an existing picture whose status is known
      and different, and a reviewer. */
  function ReviewCheck(pictures: map<int, Picture>, req: Option<PictureReviewRequest>, loginUser: Option<Users.User>)
    : (r: Outcome)
    ensures req.None? ==> r == Fails(ParamsError, "")
    ensures req.Some? && (req.value.id.None? || ReviewStatuses.FromValue(req.value.reviewStatus).None?
                          || req.value.reviewStatus == Some(ReviewStatuses.Value(ReviewStatuses.Reviewing)))
            ==> r == Fails(ParamsError, "")
    ensures req.Some? && req.value.id.Some? && ReviewStatuses.FromValue(req.value.reviewStatus).Some?
            && req.value.reviewStatus != Some(ReviewStatuses.Value(ReviewStatuses.Reviewing))
            && req.value.id.value !in pictures
            ==> r == Fails(NotFoundError, "")
    ensures r == Pass <==>
      req.Some? && req.value.id.Some? && req.value.id.value in pictures
      && ReviewStatuses.FromValue(req.value.reviewStatus) in {Some(ReviewStatuses.Passed), Some(ReviewStatuses.Rejected)}
      && pictures[req.value.id.value].reviewStatus.Some?
      && pictures[req.value.id.value].reviewStatus != req.value.reviewStatus
      && loginUser.Some?
  {
    if req.None? then Fails(ParamsError, "")
    else
      var status := ReviewStatuses.FromValue(req.value.reviewStatus);
      if req.value.id.None? || status.None? || status == Some(ReviewStatuses.Reviewing) then Fails(ParamsError, "")
      else
        var id := req.value.id.value;
        if id !in pictures then Fails(NotFoundError, "")
        else if pictures[id].reviewStatus.None? then Fails(Uncaught, "NullPointerException")
        else if pictures[id].reviewStatus == req.value.reviewStatus then Fails(OperationError, "请勿重复审核")
        else if loginUser.None? then Fails(Uncaught, "NullPointerException")
        else Pass
  }

  /** The update doPictureReview writes: the request's id, status and
      message, the reviewer and the review time. */
  function ReviewUpdate(req: PictureReviewRequest, reviewer: Users.User, now: int): Picture {
    EmptyPicture.(id := req.id, reviewStatus := req.reviewStatus, reviewMessage := req.reviewMessage,
                  reviewerId := Some(reviewer.id), reviewTime := Some(now))
  }

  /** Once a review is stored, the same review again is refused as a repeat. */
  lemma RepeatReviewRejected(pictures: map<int, Picture>, req: PictureReviewRequest, reviewer: Users.User, now: int)
    requires ReviewCheck(pictures, Some(req), Some(reviewer)) == Pass
    ensures var id := req.id.value;
      var after := pictures[id := Merge(pictures[id], ReviewUpdate(req, reviewer, now))];
      ReviewCheck(after, Some(req), Some(reviewer)) == Fails(OperationError, "请勿重复审核")
  {
  }

  /** After a stored review the picture has the requested final status and
      the reviewer; it is never set back to reviewing by a review. */
  lemma ReviewSetsFinalStatus(pictures: map<int, Picture>, req: PictureReviewRequest, reviewer: Users.User, now: int)
    requires ReviewCheck(pictures, Some(req), Some(reviewer)) == Pass
    ensures var p := Merge(pictures[req.id.value], ReviewUpdate(req, reviewer, now));
      && p.reviewStatus == req.reviewStatus
      && p.reviewStatus != Some(ReviewStatuses.Value(ReviewStatuses.Reviewing))
      && p.reviewStatus != pictures[req.id.value].reviewStatus
      && p.reviewerId == Some(reviewer.id) && p.reviewTime == Some(now)
  {
  }

  /** A final status is not final for the code: a passed picture can be
      reviewed again and rejected, and a rejected one passed. */
  lemma FinalStatusCanBeReversed(pictures: map<int, Picture>, id: int, reviewer: Users.User)
    requires id in pictures
    requires pictures[id].reviewStatus in {Some(ReviewStatuses.Value(ReviewStatuses.Passed)),
                                           Some(ReviewStatuses.Value(ReviewStatuses.Rejected))}
    ensures var target := if pictures[id].reviewStatus == Some(ReviewStatuses.Value(ReviewStatuses.Passed))
                          then ReviewStatuses.Rejected else ReviewStatuses.Passed;
      ReviewCheck(pictures, Some(PictureReviewRequest(Some(id), Some(ReviewStatuses.Value(target)), None)),
                  Some(reviewer)) == Pass
  {
    ReviewStatuses.FromValueOfValue(ReviewStatuses.Passed);
    ReviewStatuses.FromValueOfValue(ReviewStatuses.Rejected);
  }

  // ---------------------------------------------------------------- cached page read

  /** The query; every filter other than the page and the review status is
      kept as one opaque part, serialised along with the rest. */
  datatype PictureQueryRequest = PictureQueryRequest(current: int, pageSize: int, reviewStatus: Option<int>,
                                                     filters: string)

  const CacheKeyPrefix: string := "gqzpicture:listPictureVOByPage:"
  const MaxCacheTtl: int := 300

  /** What the cached read runs on: the request with its status forced to PASS. */
  function PublicQuery(req: PictureQueryRequest): (r: PictureQueryRequest)
    ensures r.reviewStatus == Some(ReviewStatuses.Value(ReviewStatuses.Passed))
    ensures r.(reviewStatus := req.reviewStatus) == req
  {
    req.(reviewStatus := Some(ReviewStatuses.Value(ReviewStatuses.Passed)))
  }

  /** The cache key: the prefix and the digest of the serialised public query. */
  function CacheKey(req: PictureQueryRequest, toJson: PictureQueryRequest -> string, md5: string -> string): (r: string)
    ensures |CacheKeyPrefix| <= |r| && r[..|CacheKeyPrefix|] == CacheKeyPrefix
  {
    CacheKeyPrefix + md5(toJson(PublicQuery(req)))
  }

  /** The status a client asks for does not reach the key: every request
      shares the entry of its public query. */
  lemma CacheKeyIgnoresReviewStatus(a: PictureQueryRequest, b: PictureQueryRequest,
                                    toJson: PictureQueryRequest -> string, md5: string -> string)
    requires a.(reviewStatus := None) == b.(reviewStatus := None)
    ensures CacheKey(a, toJson, md5) == CacheKey(b, toJson, md5)
  {
    assert PublicQuery(a) == PublicQuery(b);
  }

  datatype CacheState = CacheState(local: map<string, string>, redis: map<string, string>, ttl: map<string, int>)

  /** The page a read returns, or the exception it throws, and the caches after it. */
  datatype CachedRead = CachedRead(value: Result<string>, state: CacheState)

  /** What Redis answers to a SET whose expiry is not positive. */
  const InvalidExpireMessage: string := "ERR invalid expire time"

  /** One read through both tiers for key; loaded is what the store query
      returns, serialised, and ttl the expiry in seconds the miss branch
      hands to Redis. Redis refuses an expiry that is not positive: the
      exception reaches the caller before the local cache is written. */
  function ReadThrough(s: CacheState, key: string, loaded: string, ttl: int): (r: CachedRead)
    ensures key in s.local ==> r == CachedRead(Ok(s.local[key]), s)
    ensures key !in s.local && key in s.redis ==>
      r == CachedRead(Ok(s.redis[key]), s.(local := s.local[key := s.redis[key]]))
    ensures key !in s.local && key !in s.redis && ttl <= 0 ==>
      r == CachedRead(Err(Error(Uncaught, InvalidExpireMessage)), s)
    ensures key !in s.local && key !in s.redis && ttl > 0 ==>
      r == CachedRead(Ok(loaded), CacheState(s.local[key := loaded], s.redis[key := loaded], s.ttl[key := ttl]))
    ensures r.value.Ok? ==> key in r.state.local && r.state.local[key] == r.value.value
    ensures r.value.Err? ==> r.state == s
  {
    if key in s.local then CachedRead(Ok(s.local[key]), s)
    else if key in s.redis then CachedRead(Ok(s.redis[key]), s.(local := s.local[key := s.redis[key]]))
    else if ttl <= 0 then CachedRead(Err(Error(Uncaught, InvalidExpireMessage)), s)
    else CachedRead(Ok(loaded), CacheState(s.local[key := loaded], s.redis[key := loaded], s.ttl[key := ttl]))
  }

  /** A second read of the same key after a successful one returns what the
      first returned and changes nothing, whatever the store would now
      return; a failed read leaves the caches as they were, so the retry
      starts afresh. */
  lemma ReadThroughIdempotent(s: CacheState, key: string, loaded1: string, loaded2: string, t1: int, t2: int)
    ensures var first := ReadThrough(s, key, loaded1, t1);
      first.value.Ok? ==> ReadThrough(first.state, key, loaded2, t2) == first
    ensures var first := ReadThrough(s, key, loaded1, t1);
      first.value.Err? ==> ReadThrough(first.state, key, loaded2, t2) == ReadThrough(s, key, loaded2, t2)
  {
  }

  /** Every expiry stored in Redis lies in [1, 300) seconds. */
  ghost predicate TtlsInRange(s: CacheState) {
    s.ttl.Keys == s.redis.Keys && forall k :: k in s.ttl ==> 0 < s.ttl[k] < MaxCacheTtl
  }

  /** With the expiry drawn from RandomUtil.randomInt(0, 300), that is from
      [0, 300), the stored expiries stay in range: a draw of 0 stores nothing. */
  lemma ReadThroughKeepsTtlsInRange(s: CacheState, key: string, loaded: string, ttl: int)
    requires TtlsInRange(s) && 0 <= ttl < MaxCacheTtl
    ensures TtlsInRange(ReadThrough(s, key, loaded, ttl).state)
  {
  }

  /** As written, a miss on both tiers whose random expiry is 0 throws
      after the store was queried, and the caller gets no page. */
  lemma ZeroExpiryMissFails(s: CacheState, key: string, loaded: string)
    requires key !in s.local && key !in s.redis
    ensures ReadThrough(s, key, loaded, 0) == CachedRead(Err(Error(Uncaught, InvalidExpireMessage)), s)
  {
  }

  /** The expiry the comment describes, five to ten minutes: 300 seconds
      plus the random draw. */
  function IntendedTtl(jitter: int): int {
    MaxCacheTtl + jitter
  }

  /** With the intended expiry every miss succeeds, returns the loaded page
      and stores it with an expiry of 300 to 599 seconds. */
  lemma IntendedTtlMissSucceeds(s: CacheState, key: string, loaded: string, jitter: int)
    requires 0 <= jitter < MaxCacheTtl
    requires key !in s.local && key !in s.redis
    ensures var r := ReadThrough(s, key, loaded, IntendedTtl(jitter));
      && r.value == Ok(loaded)
      && r.state.redis[key] == loaded && r.state.local[key] == loaded
      && MaxCacheTtl <= r.state.ttl[key] < 2 * MaxCacheTtl
  {
  }

  // ---------------------------------------------------------------- batch fetch

  datatype BatchRequest = BatchRequest(searchText: Option<string>, count: Option<int>, namePrefix: Option<string>)

  /** One a.iusc element of the fetched page: its murl value, and whether
      uploading that picture succeeds. */
  datatype Candidate = Candidate(murl: Option<string>, uploads: bool)

  /** The fetch of the search page: it failed, it has no dgControl element,
      or it lists candidates in page order. */
  datatype FetchedPage = FetchFailed | NoContainer | Found(candidates: seq<Candidate>)

  datatype BatchItem = BatchItem(name: string, url: string)

  const MaxBatchCount: int := 30

  /** A nullable string as Java's string concatenation prints it. */
  function JavaText(s: Option<string>): string {
    if s.Some? then s.value else "null"
  }

  function SearchUrl(searchText: Option<string>): string {
    "https://cn.bing.com/images/async?q=" + JavaText(searchText) + "&mmasync=1"
  }

  /** The name prefix defaults to the search text. */
  function NamePrefix(req: BatchRequest): string {
    if Blank(req.namePrefix) then JavaText(req.searchText) else req.namePrefix.value
  }

  /** String.indexOf for one character: the first index, or -1. */
  function IndexOf(s: string, c: char): (r: int)
    ensures -1 <= r < |s|
    ensures r >= 0 ==> s[r] == c
    ensures forall i :: 0 <= i < |s| && (r < 0 || i < r) ==> s[i] != c
  {
    if s == [] then -1
    else if s[0] == c then 0
    else
      var rest := IndexOf(s[1..], c);
      if rest < 0 then -1 else rest + 1
  }

  /** A URL cut at its first '?'. */
  function CutAtQuery(url: string): (r: string)
    ensures '?' !in r
    ensures |r| <= |url| && r == url[..|r|]
    ensures '?' !in url ==> r == url
    ensures |r| < |url| ==> url[|r|] == '?'
  {
    var q := IndexOf(url, '?');
    if q > -1 then url[..q] else url
  }

  /** The uploads the loop makes, after those already made in done: blank
      candidates and failed uploads are skipped without counting, each name
      is the prefix and the number of successes so far plus one, and the
      loop stops after a success that brings the count to at least count. */
  function BatchFrom(cands: seq<Candidate>, prefix: string, count: int, done: seq<BatchItem>): seq<BatchItem>
    decreases |cands|
  {
    if cands == [] then done
    else if Blank(cands[0].murl) || !cands[0].uploads then BatchFrom(cands[1..], prefix, count, done)
    else
      var item := BatchItem(prefix + NatToString(|done| + 1), CutAtQuery(cands[0].murl.value));
      if |done + [item]| >= count then done + [item]
      else BatchFrom(cands[1..], prefix, count, done + [item])
  }

  predicate NumberedFrom(items: seq<BatchItem>, prefix: string) {
    forall k :: 0 <= k < |items| ==> items[k].name == prefix + NatToString(k + 1)
  }

  predicate CleanUrls(items: seq<BatchItem>) {
    forall k :: 0 <= k < |items| ==> '?' !in items[k].url
  }

  /** The names are numbered 1, 2, ... in order and no url has a query. */
  lemma {:induction false} BatchFromShape(cands: seq<Candidate>, prefix: string, count: int, done: seq<BatchItem>)
    requires NumberedFrom(done, prefix) && CleanUrls(done)
    ensures var r := BatchFrom(cands, prefix, count, done);
      && NumberedFrom(r, prefix) && CleanUrls(r) && done <= r
    decreases |cands|
  {
    if cands != [] {
      if Blank(cands[0].murl) || !cands[0].uploads {
        BatchFromShape(cands[1..], prefix, count, done);
      } else {
        var item := BatchItem(prefix + NatToString(|done| + 1), CutAtQuery(cands[0].murl.value));
        var next := done + [item];
        assert NumberedFrom(next, prefix) by {
          forall k | 0 <= k < |next| ensures next[k].name == prefix + NatToString(k + 1) {
            if k < |done| { assert next[k] == done[k]; }
          }
        }
        assert CleanUrls(next) by {
          forall k | 0 <= k < |next| ensures '?' !in next[k].url {
            if k < |done| { assert next[k] == done[k]; }
          }
        }
        if |next| < count {
          BatchFromShape(cands[1..], prefix, count, next);
        }
      }
    }
  }

  /** The loop never uploads more than count pictures (one when count is
      below 1), and never more than there are candidates. */
  lemma {:induction false} BatchFromBound(cands: seq<Candidate>, prefix: string, count: int, done: seq<BatchItem>)
    requires |done| < count || done == []
    ensures var r := BatchFrom(cands, prefix, count, done);
      && |r| <= |done| + |cands|
      && |r| <= (if count < 1 then 1 else count)
    decreases |cands|
  {
    if cands != [] {
      if Blank(cands[0].murl) || !cands[0].uploads {
        BatchFromBound(cands[1..], prefix, count, done);
      } else {
        var item := BatchItem(prefix + NatToString(|done| + 1), CutAtQuery(cands[0].murl.value));
        if |done + [item]| < count {
          BatchFromBound(cands[1..], prefix, count, done + [item]);
        }
      }
    }
  }

  /** The candidates whose upload would succeed: a non-blank url that uploads. */
  function Successes(cands: seq<Candidate>): nat {
    if cands == [] then 0
    else (if Blank(cands[0].murl) || !cands[0].uploads then 0 else 1) + Successes(cands[1..])
  }

  /** With a count below 1 the loop stops after its first upload: one
      picture when some candidate succeeds, none otherwise. */
  lemma {:induction false} BatchFromNonPositiveCount(cands: seq<Candidate>, prefix: string, count: int)
    requires count < 1
    ensures |BatchFrom(cands, prefix, count, [])| == if Successes(cands) > 0 then 1 else 0
    decreases |cands|
  {
    if cands != [] && (Blank(cands[0].murl) || !cands[0].uploads) {
      BatchFromNonPositiveCount(cands[1..], prefix, count);
    }
  }

  /** With a positive count the loop makes exactly count uploads, or as
      many as can succeed when there are fewer: three unusable candidates
      followed by five good ones give five uploads for a count of five. */
  lemma {:induction false} BatchFromCount(cands: seq<Candidate>, prefix: string, count: int, done: seq<BatchItem>)
    requires |done| < count
    ensures |BatchFrom(cands, prefix, count, done)|
            == if |done| + Successes(cands) < count then |done| + Successes(cands) else count
    decreases |cands|
  {
    if cands != [] {
      if Blank(cands[0].murl) || !cands[0].uploads {
        BatchFromCount(cands[1..], prefix, count, done);
      } else {
        var item := BatchItem(prefix + NatToString(|done| + 1), CutAtQuery(cands[0].murl.value));
        if |done + [item]| < count {
          BatchFromCount(cands[1..], prefix, count, done + [item]);
        }
      }
    }
  }

  /** No two pictures of one batch get the same name. */
  lemma BatchNamesDistinct(items: seq<BatchItem>, prefix: string, i: int, j: int)
    requires NumberedFrom(items, prefix)
    requires 0 <= i < |items| && 0 <= j < |items| && i != j
    ensures items[i].name != items[j].name
  {
    PrefixedNumbersDistinct(prefix, i + 1, j + 1);
  }

  /** The loop of uploadPictureByBatch over the page's candidates: skip a
      blank url, cut the query, name the upload, and stop once count
      uploads have succeeded (the count is tested only after an upload). */
  method ProcessCandidates(imgElementList: seq<Candidate>, namePrefix: string, count: int)
    returns (items: seq<BatchItem>)
    ensures items == BatchFrom(imgElementList, namePrefix, count, [])
  {
    items := [];
    var uploadCount := 0;
    var i := 0;
    while i < |imgElementList|
      invariant 0 <= i <= |imgElementList|
      invariant uploadCount == |items|
      invariant |items| < count || items == []
      invariant BatchFrom(imgElementList[i..], namePrefix, count, items)
                == BatchFrom(imgElementList, namePrefix, count, [])
      decreases |imgElementList| - i
    {
      var imgElement := imgElementList[i];
      assert imgElementList[i..][1..] == imgElementList[i + 1..];
      i := i + 1;
      if Blank(imgElement.murl) {
        continue;
      }
      var fileUrl := imgElement.murl.value;
      var questionMarkIndex := IndexOf(fileUrl, '?');
      if questionMarkIndex > -1 {
        fileUrl := fileUrl[..questionMarkIndex];
      }
      var picName := namePrefix + NatToString(uploadCount + 1);
      if !imgElement.uploads {
        continue;
      }
      items := items + [BatchItem(picName, fileUrl)];
      uploadCount := uploadCount + 1;
      if uploadCount >= count {
        break;
      }
    }
  }

  /** uploadPictureByBatch. Each upload's success is the candidate's uploads
      flag; the uploads themselves (uploadPicture) are not carried out here. */
  method UploadPictureByBatch(req: Option<BatchRequest>, fetch: string -> FetchedPage)
    returns (r: Result<int>, items: seq<BatchItem>)
    ensures req.None? ==> r == Err(Error(ParamsError, "")) && items == []
    ensures req.Some? && req.value.count.None? ==> r.Err? && r.error.code == Uncaught && items == []
    ensures req.Some? && req.value.count.Some? && req.value.count.value > MaxBatchCount ==>
      r == Err(Error(ParamsError, "最多 30 条")) && items == []
    ensures req.Some? && req.value.count.Some? && req.value.count.value <= MaxBatchCount ==>
      match fetch(SearchUrl(req.value.searchText))
      case FetchFailed => r == Err(Error(OperationError, "获取页面失败")) && items == []
      case NoContainer => r == Err(Error(OperationError, "获取元素失败")) && items == []
      case Found(cands) =>
        && items == BatchFrom(cands, NamePrefix(req.value), req.value.count.value, [])
        && r == Ok(|items|)
    ensures r.Ok? ==>
      && NumberedFrom(items, NamePrefix(req.value)) && CleanUrls(items)
      && |items| <= (if req.value.count.value < 1 then 1 else req.value.count.value)
    ensures r.Ok? && req.value.count.value >= 1 ==>
      var total := Successes(fetch(SearchUrl(req.value.searchText)).candidates);
      |items| == if total < req.value.count.value then total else req.value.count.value
  {
    items := [];
    if req.None? {
      r := Err(Error(ParamsError, ""));
      return;
    }
    var searchText := req.value.searchText;
    var count := req.value.count;
    var namePrefix := NamePrefix(req.value);
    if count.None? {
      r := Err(Error(Uncaught, "NullPointerException"));
      return;
    }
    if count.value > MaxBatchCount {
      r := Err(Error(ParamsError, "最多 30 条"));
      return;
    }
    var document := fetch(SearchUrl(searchText));
    if document.FetchFailed? {
      r := Err(Error(OperationError, "获取页面失败"));
      return;
    }
    if document.NoContainer? {
      r := Err(Error(OperationError, "获取元素失败"));
      return;
    }
    var imgElementList := document.candidates;
    items := ProcessCandidates(imgElementList, namePrefix, count.value);
    var uploadCount := |items|;
    r := Ok(uploadCount);
    BatchFromShape(imgElementList, namePrefix, count.value, []);
    BatchFromBound(imgElementList, namePrefix, count.value, []);
    if count.value >= 1 {
      BatchFromCount(imgElementList, namePrefix, count.value, []);
    }
  }

  // ---------------------------------------------------------------- cleanPictureFile

  /** The delete calls cleanPictureFile makes, in order, with the keys as
      passed: none when the count query throws or finds the url in more than
      one row; else the url, then the thumbnail url when it is not blank. */
  function CleanupTargets(oldPicture: Picture, matching: Option<int>): (r: seq<Option<string>>)
    ensures matching.None? || matching.value > 1 ==> r == []
    ensures matching.Some? && matching.value <= 1 ==>
      && |r| >= 1 && r[0] == oldPicture.url
      && (|r| == 2 <==> !Blank(oldPicture.thumbnailUrl))
      && (|r| == 2 ==> r[1] == oldPicture.thumbnailUrl)
    ensures |r| <= 2
  {
    if matching.None? || matching.value > 1 then []
    else if !Blank(oldPicture.thumbnailUrl) then [oldPicture.url, oldPicture.thumbnailUrl]
    else [oldPicture.url]
  }

  /** The string columns of the picture table, named as the entity's fields
      (the other query conditions of the service name them so). */
  const TextColumns: set<string> :=
    {"url", "thumbnailUrl", "name", "introduction", "category", "tags", "picFormat", "reviewMessage"}

  /** The value of a string column of a row; None for a null cell or a
      column the table does not have. */
  function TextColumn(p: Picture, column: string): Option<string> {
    if column == "url" then p.url
    else if column == "thumbnailUrl" then p.thumbnailUrl
    else if column == "name" then p.name
    else if column == "introduction" then p.introduction
    else if column == "category" then p.category
    else if column == "tags" then p.tags
    else if column == "picFormat" then p.picFormat
    else if column == "reviewMessage" then p.reviewMessage
    else None
  }

  /** The ids of the rows whose column equals value; an equality with SQL
      NULL holds for no row. */
  ghost function RowsWhere(pictures: map<int, Picture>, column: string, value: Option<string>): set<int> {
    set k | k in pictures && value.Some? && TextColumn(pictures[k], column) == value
  }

  /** count(new QueryWrapper<Picture>().eq(column, value)): the number of
      matching rows, or None when the database refuses a column the table
      does not have. */
  function CountWhere(pictures: map<int, Picture>, column: string, value: Option<string>): (r: Option<nat>)
    ensures r.Some? <==> column in TextColumns
    ensures r.Some? ==> r.value <= |pictures|
    ensures r.Some? && value.None? ==> r.value == 0
  {
    if column !in TextColumns then None
    else
      var rows := set k | k in pictures && value.Some? && TextColumn(pictures[k], column) == value;
      assert rows <= pictures.Keys;
      SubsetCard(rows, pictures.Keys);
      Some(|rows|)
  }

  lemma SubsetCard(a: set<int>, b: set<int>)
    requires a <= b
    ensures |a| <= |b|
  {
    assert b == a + (b - a);
  }

  /** Two distinct rows sharing the value make the count at least two. */
  lemma CountOfTwoRows(pictures: map<int, Picture>, column: string, value: Option<string>, i: int, j: int)
    requires column in TextColumns && i != j
    requires i in RowsWhere(pictures, column, value) && j in RowsWhere(pictures, column, value)
    ensures CountWhere(pictures, column, value).value >= 2
  {
    var rows := RowsWhere(pictures, column, value);
    assert CountWhere(pictures, column, value).value == |rows|;
    SubsetCard({i, j}, rows);
  }

  /** The column cleanPictureFile counts on. */
  const CleanupCountColumn: string := "pictureUrl"

  /** cleanPictureFile as written: the delete calls it makes against the
      table pictures, each with the key as passed. */
  function CleanPictureFileAsWritten(pictures: map<int, Picture>, oldPicture: Picture): seq<Option<string>> {
    CleanupTargets(oldPicture, CountWhere(pictures, CleanupCountColumn, oldPicture.url))
  }

  /** As written, the count names a column the table does not have, the
      query throws, and no object is ever deleted. */
  lemma AsWrittenCleanupDeletesNothing(pictures: map<int, Picture>, oldPicture: Picture)
    ensures CleanPictureFileAsWritten(pictures, oldPicture) == []
  {
  }

  /** Were the count to succeed, the first delete would still be passed the
      whole url, host included, and so not the key the object was stored
      under. */
  lemma AsWrittenDeleteKeysAreUrls(oldPicture: Picture, host: string, key: string, matching: nat)
    requires oldPicture.url == Some(host + "/" + key) && matching <= 1
    ensures CleanupTargets(oldPicture, Some(matching))[0] != Some(key)
  {
    assert |host + "/" + key| > |key|;
  }

  /** The object key a url built as host + "/" + key stands for, or None
      for a url under another host. */
  function ObjectKey(host: string, url: string): Option<string> {
    if |host| < |url| && url[..|host| + 1] == host + "/" then Some(url[|host| + 1..]) else None
  }

  /** ObjectKey undoes the url construction of the upload, both ways. */
  lemma ObjectKeyOfUrl(host: string, key: string)
    ensures ObjectKey(host, host + "/" + key) == Some(key)
  {
    var url := host + "/" + key;
    assert url[..|host| + 1] == host + "/";
    assert url[|host| + 1..] == key;
  }

  lemma UrlOfObjectKey(host: string, url: string)
    requires ObjectKey(host, url).Some?
    ensures url == host + "/" + ObjectKey(host, url).value
  {
    assert url == url[..|host| + 1] + url[|host| + 1..];
  }

  /** The keys to delete for one url cell. */
  function KeysOf(host: string, url: Option<string>): (r: seq<string>)
    ensures |r| <= 1
    ensures |r| == 1 ==> url == Some(host + "/" + r[0])
  {
    if url.Some? && ObjectKey(host, url.value).Some? then
      UrlOfObjectKey(host, url.value);
      [ObjectKey(host, url.value).value]
    else []
  }

  /** cleanPictureFile as evidently intended: count the rows on the url
      column and delete the objects by their keys. */
  function CleanPictureFile(pictures: map<int, Picture>, host: string, oldPicture: Picture): (r: seq<string>)
    ensures |r| <= 2
    ensures forall i :: 0 <= i < |r| ==>
      Some(host + "/" + r[i]) == oldPicture.url || Some(host + "/" + r[i]) == oldPicture.thumbnailUrl
  {
    var targets := CleanupTargets(oldPicture, CountWhere(pictures, "url", oldPicture.url));
    if targets == [] then []
    else KeysOf(host, targets[0]) + (if |targets| == 2 then KeysOf(host, targets[1]) else [])
  }

  /** A picture whose url no other row shares has its original and its
      thumbnail deleted under the keys they were uploaded to. */
  lemma CleanupDeletesUploadedObjects(pictures: map<int, Picture>, host: string, oldPicture: Picture,
                                      key: string, thumbKey: string)
    requires oldPicture.url == Some(host + "/" + key)
    requires oldPicture.thumbnailUrl == Some(host + "/" + thumbKey)
    requires |set k | k in pictures && pictures[k].url == oldPicture.url| <= 1
    ensures CleanPictureFile(pictures, host, oldPicture) == [key, thumbKey]
  {
    forall k | k in pictures
      ensures k in RowsWhere(pictures, "url", oldPicture.url) <==> pictures[k].url == oldPicture.url
    {
      assert TextColumn(pictures[k], "url") == pictures[k].url;
    }
    assert RowsWhere(pictures, "url", oldPicture.url) == set k | k in pictures && pictures[k].url == oldPicture.url;
    assert (host + "/" + thumbKey)[|host|] == '/';
    assert !Blank(oldPicture.thumbnailUrl);
    ObjectKeyOfUrl(host, key);
    ObjectKeyOfUrl(host, thumbKey);
  }

  /** While two rows share the url, nothing is deleted. */
  lemma CleanupKeepsSharedFile(pictures: map<int, Picture>, host: string, oldPicture: Picture, i: int, j: int)
    requires i != j && i in pictures && j in pictures
    requires oldPicture.url.Some? && pictures[i].url == oldPicture.url && pictures[j].url == oldPicture.url
    ensures CleanPictureFile(pictures, host, oldPicture) == []
  {
    CountOfTwoRows(pictures, "url", oldPicture.url, i, j);
  }

  // ---------------------------------------------------------------- getPictureVOPage

  datatype PicturePage = PicturePage(current: int, size: int, total: int, records: seq<Picture>)

  /** A picture with its uploader's public view (PictureVO). */
  datatype PictureVO = PictureVO(picture: Picture, user: Option<Users.UserVO>)

  datatype PictureVOPage = PictureVOPage(current: int, size: int, total: int, records: seq<PictureVO>)

  function Attach(records: seq<Picture>, users: map<int, Users.User>): (r: seq<PictureVO>)
    ensures |r| == |records|
    ensures forall i :: 0 <= i < |records| ==> r[i] == PictureVO(records[i], Users.UserViewById(users, records[i].userId))
  {
    if records == [] then [] else [PictureVO(records[0], Users.UserViewById(users, records[0].userId))] + Attach(records[1..], users)
  }

  /** getPictureVOPage: the same page numbers, the records in order, each
      with its uploader's view or none. */
  function GetPictureVOPage(page: PicturePage, users: map<int, Users.User>): (r: PictureVOPage)
    ensures r.current == page.current && r.size == page.size && r.total == page.total
    ensures |r.records| == |page.records|
    ensures forall i :: 0 <= i < |page.records| ==>
      r.records[i].picture == page.records[i]
      && r.records[i].user == (if page.records[i].userId.Some? && page.records[i].userId.value in users
                               then Some(Users.View(users[page.records[i].userId.value])) else None)
  {
    if page.records == [] then PictureVOPage(page.current, page.size, page.total, [])
    else PictureVOPage(page.current, page.size, page.total, Attach(page.records, users))
  }

  // ---------------------------------------------------------------- the service

  class PictureService {
    var pictures: map<int, Picture>
    /** The process-local cache and the shared Redis store, with the expiry
        Redis was given for each of its keys. */
    var localCache: map<string, string>
    var redis: map<string, string>
    var redisTtl: map<string, int>
    const uploader: UploadTemplate.PictureUploader

    ghost predicate Valid()
      reads this
    {
      IdsMatchKeys(pictures)
      && TtlsInRange(CacheState(localCache, redis, redisTtl))
    }

    constructor (uploader: UploadTemplate.PictureUploader)
      ensures Valid() && this.uploader == uploader
      ensures pictures == map[] && localCache == map[] && redis == map[] && redisTtl == map[]
    {
      this.uploader := uploader;
      pictures := map[];
      localCache := map[];
      redis := map[];
      redisTtl := map[];
    }

    /** uploadPicture. newId is the id the store assigns to an insert, now
        the current time; the rest are the upload's inputs. */
    method UploadPicture(source: InputSource, file: FileHooks, wellFormed: string -> bool, head: UrlUpload.HeadOutcome,
                         req: Option<PictureUploadRequest>, loginUser: Option<Users.User>,
                         env: UploadEnv, scale: Scale, newId: int, now: int)
      returns (r: Result<Picture>)
      requires Valid() && newId !in pictures
      requires env.tempName.Some? ==> env.tempName.value !in uploader.tmp.files
      modifies this`pictures, uploader.tmp
      ensures Valid()
      ensures UploadGuard(old(pictures), loginUser, req).Fail? ==>
        r == Err(UploadGuard(old(pictures), loginUser, req).error)
        && pictures == old(pictures) && unchanged(uploader.tmp)
      ensures UploadGuard(old(pictures), loginUser, req).Pass? ==>
        var upload := UploadTemplate.UploadOutcome(uploader.host, SourceCheck(source, file, wellFormed, head),
                                                   UploadPrefix(loginUser.value.id), SourceName(source, file), env, scale);
        && (upload.Err? ==> r == Err(upload.error) && pictures == old(pictures))
        && (upload.Ok? ==>
              var record := NewRecord(upload.value, req, loginUser.value, now);
              && pictures == SaveOrUpdate(old(pictures), record, newId)
              && r == Ok(if record.id.Some? then record else record.(id := Some(newId))))
        && uploader.tmp.files == old(uploader.tmp.files)
             + UploadTemplate.LeftBehind(SourceCheck(source, file, wellFormed, head), env)
    {
      var guard := UploadGuard(pictures, loginUser, req);
      if guard.Fail? {
        return Err(guard.error);
      }
      var user := loginUser.value;
      var pictureId := RequestId(req);
      var uploadPathPrefix := UploadPrefix(user.id);
      var upload, _ := uploader.UploadPicture(SourceCheck(source, file, wellFormed, head), uploadPathPrefix,
                                              SourceName(source, file), env, scale);
      if upload.Err? {
        return Err(upload.error);
      }
      var picture := NewRecord(upload.value, req, user, now);
      SaveOrUpdateKeepsIds(pictures, picture, newId);
      pictures := SaveOrUpdate(pictures, picture, newId);
      r := Ok(if picture.id.Some? then picture else picture.(id := Some(newId)));
    }

    /** doPictureReview. */
    method DoPictureReview(req: Option<PictureReviewRequest>, loginUser: Option<Users.User>, now: int)
      returns (r: Outcome)
      requires Valid()
      modifies this`pictures
      ensures Valid()
      ensures r == ReviewCheck(old(pictures), req, loginUser)
      ensures r.Fail? ==> pictures == old(pictures)
      ensures r.Pass? ==>
        var id := req.value.id.value;
        pictures == old(pictures)[id := Merge(old(pictures)[id], ReviewUpdate(req.value, loginUser.value, now))]
    {
      r := ReviewCheck(pictures, req, loginUser);
      if r.Fail? {
        return;
      }
      var id := req.value.id.value;
      var updatePicture := ReviewUpdate(req.value, loginUser.value, now);
      pictures := pictures[id := Merge(pictures[id], updatePicture)];
    }

    /** listPictureVOByPageWithCache. loadPage is the store query and the
        page view, serialised; jitter is RandomUtil.randomInt(0, 300). */
    method ListPictureVOByPageWithCache(req: PictureQueryRequest, toJson: PictureQueryRequest -> string,
                                        md5: string -> string, loadPage: PictureQueryRequest -> string, jitter: int)
      returns (r: Result<string>)
      requires Valid() && 0 <= jitter < MaxCacheTtl
      modifies this`localCache, this`redis, this`redisTtl
      ensures Valid()
      ensures CachedRead(r, CacheState(localCache, redis, redisTtl))
              == ReadThrough(old(CacheState(localCache, redis, redisTtl)), CacheKey(req, toJson, md5),
                             loadPage(PublicQuery(req)), jitter)
    {
      var publicReq := PublicQuery(req);
      var queryCondition := toJson(publicReq);
      var cacheKey := CacheKeyPrefix + md5(queryCondition);
      if cacheKey in localCache {
        return Ok(localCache[cacheKey]);
      }
      if cacheKey in redis {
        var cachedValue := redis[cacheKey];
        localCache := localCache[cacheKey := cachedValue];
        return Ok(cachedValue);
      }
      var cacheValue := loadPage(publicReq);
      var cacheExpireTime := jitter;
      if cacheExpireTime <= 0 {
        return Err(Error(Uncaught, InvalidExpireMessage));
      }
      redis := redis[cacheKey := cacheValue];
      redisTtl := redisTtl[cacheKey := cacheExpireTime];
      localCache := localCache[cacheKey := cacheValue];
      r := Ok(cacheValue);
    }
  }
}
