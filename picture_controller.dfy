/** The picture endpoints' own logic (PictureController): the id and page
    size bounds, the owner-or-administrator checks of delete and edit, the
    record an edit writes, and the fixed tag and category lists. */
module PictureController {
  import opened Common
  import Users
  import Auth
  import UserRoles
  import opened Pictures

  /** DeleteRequest: its id is a primitive int, so it is never null and
      never wider than 32 bits; a body with a wider id is not bound. */
  datatype DeleteRequest = DeleteRequest(id: Int32)

  /** PictureEditRequest: the id and the columns a user may edit, tags as a list. */
  datatype PictureEditRequest = PictureEditRequest(
    id: Option<int>, name: Option<string>, introduction: Option<string>, category: Option<string>,
    tags: Option<seq<string>>)

  /** The checks of deletePicture, in source order. */
  function DeleteCheck(pictures: map<int, Picture>, req: Option<DeleteRequest>, loginUser: Result<Users.User>)
    : (r: Outcome)
    ensures req.None? || req.value.id <= 0 ==> r == Fails(ParamsError, "")
    ensures req.Some? && req.value.id > 0 && loginUser.Err? ==> r == Fail(loginUser.error)
    ensures req.Some? && req.value.id > 0 && loginUser.Ok? && req.value.id !in pictures
            ==> r == Fails(NotFoundError, "")
    ensures r == Pass <==>
      req.Some? && req.value.id > 0 && loginUser.Ok? && req.value.id in pictures
      && pictures[req.value.id].userId.Some?
      && (pictures[req.value.id].userId.value == loginUser.value.id || Users.IsAdmin(Some(loginUser.value)))
  {
    if req.None? || req.value.id <= 0 then Fails(ParamsError, "")
    else if loginUser.Err? then Fail(loginUser.error)
    else OwnerGuard(pictures, req.value.id, loginUser.value, "")
  }

  /** A picture whose id does not fit a Java int cannot be named by a
      delete request, so deletePicture never passes its checks for it. */
  lemma WideIdNotDeletable(pictures: map<int, Picture>, req: Option<DeleteRequest>, loginUser: Result<Users.User>,
                           k: int)
    requires k > 0x7FFF_FFFF && k in pictures
    ensures DeleteCheck(pictures, req, loginUser) == Pass ==> req.value.id != k
  {
  }

  /** tags serialised as JSONUtil.toJsonStr does: null stays null. */
  function TagsColumn(tags: Option<seq<string>>, tagsJson: seq<string> -> string): (r: Option<string>)
    ensures r.Some? <==> tags.Some?
    ensures r.Some? ==> r.value == tagsJson(tags.value)
  {
    if tags.Some? then Some(tagsJson(tags.value)) else None
  }

  /** The update editPicture builds: the request's columns copied, tags
      serialised, the edit time stamped, and every other column null. */
  function EditRecord(req: PictureEditRequest, tagsJson: seq<string> -> string, now: int): (r: Picture)
    ensures r.id == req.id && r.name == req.name && r.introduction == req.introduction
    ensures r.category == req.category && r.tags == TagsColumn(req.tags, tagsJson)
    ensures r.editTime == Some(now)
    ensures r.url == None && r.userId == None
    ensures r.reviewStatus == None && r.reviewMessage == None && r.reviewerId == None && r.reviewTime == None
  {
    EmptyPicture.(id := req.id, name := req.name, introduction := req.introduction, category := req.category,
                  tags := TagsColumn(req.tags, tagsJson), editTime := Some(now))
  }

  /** The checks of editPicture, in source order. A missing id fails when
      the source unboxes it for the comparison with zero. */
  function EditCheck(pictures: map<int, Picture>, req: Option<PictureEditRequest>, tagsJson: seq<string> -> string,
                     now: int, loginUser: Result<Users.User>): (r: Outcome)
    ensures req.None? ==> r == Fails(ParamsError, "")
    ensures req.Some? && req.value.id.None? ==> r.Fail? && r.error.code == Uncaught
    ensures req.Some? && req.value.id.Some? && req.value.id.value <= 0 ==> r == Fails(ParamsError, "")
    ensures r == Pass <==>
      req.Some? && req.value.id.Some? && req.value.id.value > 0
      && ValidPicture(Some(EditRecord(req.value, tagsJson, now))) == Pass
      && loginUser.Ok?
      && OwnerGuard(pictures, req.value.id.value, loginUser.value, "") == Pass
  {
    if req.None? then Fails(ParamsError, "")
    else if req.value.id.None? then Fails(Uncaught, "NullPointerException")
    else if req.value.id.value <= 0 then Fails(ParamsError, "")
    else
      var valid := ValidPicture(Some(EditRecord(req.value, tagsJson, now)));
      if valid.Fail? then valid
      else if loginUser.Err? then Fail(loginUser.error)
      else OwnerGuard(pictures, req.value.id.value, loginUser.value, "")
  }

  /** An edit that fails validation fails the same way whoever asks and
      whatever the table holds: the picture is validated before the caller
      and the table are consulted. */
  lemma EditValidatesBeforeLookup(p1: map<int, Picture>, p2: map<int, Picture>, req: PictureEditRequest,
                                  tagsJson: seq<string> -> string, now: int,
                                  u1: Result<Users.User>, u2: Result<Users.User>)
    requires req.id.Some? && req.id.value > 0
    requires ValidPicture(Some(EditRecord(req, tagsJson, now))).Fail?
    ensures EditCheck(p1, Some(req), tagsJson, now, u1) == EditCheck(p2, Some(req), tagsJson, now, u2)
                                                      == ValidPicture(Some(EditRecord(req, tagsJson, now)))
    ensures EditCheck(p1, Some(req), tagsJson, now, u1).error.code == ParamsError
  {
  }

  /** An edit keeps the owner, the file and the whole review state of the
      picture: a user's edit of an approved picture stays approved. */
  lemma EditKeepsOwnerFileAndReview(stored: Picture, req: PictureEditRequest, tagsJson: seq<string> -> string,
                                    now: int)
    ensures var p := Merge(stored, EditRecord(req, tagsJson, now));
      && p.userId == stored.userId && p.url == stored.url && p.thumbnailUrl == stored.thumbnailUrl
      && p.reviewStatus == stored.reviewStatus && p.reviewMessage == stored.reviewMessage
      && p.reviewerId == stored.reviewerId && p.reviewTime == stored.reviewTime
      && p.editTime == Some(now)
  {
  }

  const MaxPageSize: int := 20

  /** listPictureByPage: the administrator check of its role annotation,
      then the page size bound; page is what the store query returns. */
  function ListPictureByPage(loginUser: Result<Users.User>, pageSize: int, page: PicturePage,
                             users: map<int, Users.User>): (r: Result<PictureVOPage>)
    ensures r.Ok? <==> Auth.DoInterceptor(loginUser, UserRoles.Value(UserRoles.Admin)) == Pass && pageSize <= MaxPageSize
    ensures Auth.DoInterceptor(loginUser, UserRoles.Value(UserRoles.Admin)) == Pass && pageSize > MaxPageSize
            ==> r == Err(Error(ParamsError, ""))
    ensures r.Ok? ==> r.value == GetPictureVOPage(page, users) && |r.value.records| == |page.records|
  {
    var auth := Auth.DoInterceptor(loginUser, UserRoles.Value(UserRoles.Admin));
    if auth.Fail? then Err(auth.error)
    else if pageSize > MaxPageSize then Err(Error(ParamsError, ""))
    else Ok(GetPictureVOPage(page, users))
  }

  /** Only a logged-in administrator reaches the page bound. */
  lemma ListPictureByPageIsAdminOnly(loginUser: Result<Users.User>, pageSize: int, page: PicturePage,
                                     users: map<int, Users.User>)
    requires ListPictureByPage(loginUser, pageSize, page, users).Ok?
    ensures loginUser.Ok? && loginUser.value.userRole == Some(UserRoles.Value(UserRoles.Admin))
  {
  }

  /** The guard bounds the size from above only: a negative size reaches
      the store, which then returns the page unpaged. */
  lemma NegativePageSizePasses(loginUser: Result<Users.User>, pageSize: int, page: PicturePage,
                               users: map<int, Users.User>)
    requires Auth.DoInterceptor(loginUser, UserRoles.Value(UserRoles.Admin)) == Pass && pageSize < 0
    ensures ListPictureByPage(loginUser, pageSize, page, users) == Ok(GetPictureVOPage(page, users))
  {
  }

  datatype PictureTagCategory = PictureTagCategory(tagList: seq<string>, categoryList: seq<string>)

  /** listPictureTagCategory: nine distinct tags, and ten categories in
      which only the fifth and the tenth coincide. */
  function ListPictureTagCategory(): (r: PictureTagCategory)
    ensures |r.tagList| == 9 && |r.categoryList| == 10
    ensures forall i, j :: 0 <= i < j < |r.tagList| ==> r.tagList[i] != r.tagList[j]
    ensures forall i, j :: 0 <= i < j < |r.categoryList| && r.categoryList[i] == r.categoryList[j] ==> i == 4 && j == 9
    ensures r.categoryList[4] == r.categoryList[9] == "旅行"
    ensures r.tagList[0] == "人物" && r.categoryList[0] == "生活"
  {
    PictureTagCategory(
      ["人物", "风景", "动物", "植物", "食物", "交通", "建筑", "自然", "城市"],
      ["生活", "工作", "学习", "美食", "旅行", "游戏", "体育", "音乐", "电影", "旅行"])
  }

  class PictureController {
    const userService: Users.UserService
    const pictureService: PictureService

    constructor (userService: Users.UserService, pictureService: PictureService)
      ensures this.userService == userService && this.pictureService == pictureService
    {
      this.userService := userService;
      this.pictureService := pictureService;
    }

    /** deletePicture: removes exactly the checked record; the stored files
        are not cleaned up. */
    method DeletePicture(req: Option<DeleteRequest>) returns (r: Result<bool>)
      requires pictureService.Valid()
      modifies pictureService`pictures
      ensures pictureService.Valid()
      ensures var check := DeleteCheck(old(pictureService.pictures), req,
                                       Users.CurrentUser(userService.users, userService.session));
        && (check.Fail? ==> r == Err(check.error) && pictureService.pictures == old(pictureService.pictures))
        && (check.Pass? ==> r == Ok(true) && pictureService.pictures == old(pictureService.pictures) - {req.value.id})
    {
      if req.None? || req.value.id <= 0 {
        return Err(Error(ParamsError, ""));
      }
      var loginUser := userService.GetLoginUser();
      if loginUser.Err? {
        return Err(loginUser.error);
      }
      var id := req.value.id;
      var guard := OwnerGuard(pictureService.pictures, id, loginUser.value, "");
      if guard.Fail? {
        return Err(guard.error);
      }
      pictureService.pictures := pictureService.pictures - {id};
      r := Ok(true);
    }

    /** editPicture: tagsJson is the serialiser, now the current time. */
    method EditPicture(req: Option<PictureEditRequest>, tagsJson: seq<string> -> string, now: int)
      returns (r: Result<bool>)
      requires pictureService.Valid()
      modifies pictureService`pictures
      ensures pictureService.Valid()
      ensures var check := EditCheck(old(pictureService.pictures), req, tagsJson, now,
                                     Users.CurrentUser(userService.users, userService.session));
        && (check.Fail? ==> r == Err(check.error) && pictureService.pictures == old(pictureService.pictures))
        && (check.Pass? ==>
              var id := req.value.id.value;
              && r == Ok(true)
              && pictureService.pictures
                 == old(pictureService.pictures)[id := Merge(old(pictureService.pictures)[id],
                                                             EditRecord(req.value, tagsJson, now))])
    {
      if req.None? {
        return Err(Error(ParamsError, ""));
      }
      if req.value.id.None? {
        return Err(Error(Uncaught, "NullPointerException"));
      }
      if req.value.id.value <= 0 {
        return Err(Error(ParamsError, ""));
      }
      var picture := EditRecord(req.value, tagsJson, now);
      var valid := ValidPicture(Some(picture));
      if valid.Fail? {
        return Err(valid.error);
      }
      var loginUser := userService.GetLoginUser();
      if loginUser.Err? {
        return Err(loginUser.error);
      }
      var id := req.value.id.value;
      var guard := OwnerGuard(pictureService.pictures, id, loginUser.value, "");
      if guard.Fail? {
        return Err(guard.error);
      }
      pictureService.pictures := pictureService.pictures[id := Merge(pictureService.pictures[id], picture)];
      r := Ok(true);
    }
  }
}
