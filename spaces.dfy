/** Private spaces (SpaceServiceImpl): the quota levels, filling quotas from
    the level, validation, the space-per-user rule of addSpace, and the page
    view. The level enum is not part of this model: its values and quotas
    below are placeholders, distinct per level, and no result depends on
    which numbers they are. */
module Spaces {
  import opened Common
  import Users

  datatype SpaceLevel = CommonLevel | ProfessionalLevel | FlagshipLevel

  function LevelValue(l: SpaceLevel): int {
    match l
    case CommonLevel => 0
    case ProfessionalLevel => 1
    case FlagshipLevel => 2
  }

  /** The quota of a level: total bytes and number of pictures. */
  function LevelMaxSize(l: SpaceLevel): int {
    match l
    case CommonLevel => 100 * 1024 * 1024
    case ProfessionalLevel => 1000 * 1024 * 1024
    case FlagshipLevel => 10000 * 1024 * 1024
  }

  function LevelMaxCount(l: SpaceLevel): int {
    match l
    case CommonLevel => 100
    case ProfessionalLevel => 1000
    case FlagshipLevel => 10000
  }

  /** getEnumByValue: the level with that value, None for null or an unknown value. */
  function LevelFromValue(v: Option<int>): (r: Option<SpaceLevel>)
    ensures r.Some? ==> v == Some(LevelValue(r.value))
    ensures r.None? ==> v.None? || forall l: SpaceLevel :: LevelValue(l) != v.value
  {
    if v == Some(0) then Some(CommonLevel)
    else if v == Some(1) then Some(ProfessionalLevel)
    else if v == Some(2) then Some(FlagshipLevel)
    else None
  }

  lemma LevelFromValueOfValue(l: SpaceLevel)
    ensures LevelFromValue(Some(LevelValue(l))) == Some(l)
  {
  }

  /** A row of the space table (the columns addSpace touches). */
  datatype Space = Space(
    id: Option<int>, spaceName: Option<string>, spaceLevel: Option<int>,
    maxSize: Option<int>, maxCount: Option<int>, userId: Option<int>)

  datatype SpaceAddRequest = SpaceAddRequest(spaceName: Option<string>, spaceLevel: Option<int>)

  /** fillSpaceBySpaceLevel: for a known level, each quota that is not set
      takes the level's value; a quota that is set is kept. An unknown or
      missing level changes nothing. */
  function FillSpaceBySpaceLevel(s: Space): (r: Space)
    ensures LevelFromValue(s.spaceLevel).None? ==> r == s
    ensures LevelFromValue(s.spaceLevel).Some? ==>
      var l := LevelFromValue(s.spaceLevel).value;
      && r.maxSize == (if s.maxSize.Some? then s.maxSize else Some(LevelMaxSize(l)))
      && r.maxCount == (if s.maxCount.Some? then s.maxCount else Some(LevelMaxCount(l)))
    ensures r.(maxSize := s.maxSize, maxCount := s.maxCount) == s
  {
    match LevelFromValue(s.spaceLevel)
    case None => s
    case Some(l) =>
      var withSize := if s.maxSize.None? then s.(maxSize := Some(LevelMaxSize(l))) else s;
      if withSize.maxCount.None? then withSize.(maxCount := Some(LevelMaxCount(l))) else withSize
  }

  /** Filling twice is filling once; after a fill with a known level both quotas are set. */
  lemma FillIdempotent(s: Space)
    ensures FillSpaceBySpaceLevel(FillSpaceBySpaceLevel(s)) == FillSpaceBySpaceLevel(s)
    ensures LevelFromValue(s.spaceLevel).Some? ==>
      FillSpaceBySpaceLevel(s).maxSize.Some? && FillSpaceBySpaceLevel(s).maxCount.Some?
  {
  }

  const MaxSpaceNameLength: nat := 30

  /** validSpace: on creation a name and a level are required; a given name
      must not be too long and a given level must be known. */
  function ValidSpace(s: Option<Space>, add: bool): (r: Outcome)
    ensures s.None? ==> r == Fails(ParamsError, "图片信息不能为空")
    ensures s.Some? && add && Blank(s.value.spaceName) ==> r == Fails(ParamsError, "空间名称不能为空")
    ensures r == Pass <==>
      s.Some?
      && (add ==> !Blank(s.value.spaceName) && s.value.spaceLevel.Some?)
      && (Blank(s.value.spaceName) || JavaLength(s.value.spaceName.value) <= MaxSpaceNameLength)
      && (s.value.spaceLevel.None? || LevelFromValue(s.value.spaceLevel).Some?)
    ensures r.Fail? ==> r.error.code == ParamsError
  {
    if s.None? then Fails(ParamsError, "图片信息不能为空")
    else
      var spaceName := s.value.spaceName;
      var spaceLevel := s.value.spaceLevel;
      if add && Blank(spaceName) then Fails(ParamsError, "空间名称不能为空")
      else if add && spaceLevel.None? then Fails(ParamsError, "空间级别不能为空")
      else if !Blank(spaceName) && JavaLength(spaceName.value) > MaxSpaceNameLength then
        Fails(ParamsError, "空间名称过长")
      else if spaceLevel.Some? && LevelFromValue(spaceLevel).None? then Fails(ParamsError, "空间级别不存在")
      else Pass
  }

  const DefaultSpaceName: string := "默认空间"

  /** The space addSpace validates: the request copied, a blank name
      replaced by the default one, a missing level by the common level,
      and the quotas filled from the level. */
  function PreparedSpace(req: SpaceAddRequest): (r: Space)
    ensures r.spaceName == (if Blank(req.spaceName) then Some(DefaultSpaceName) else req.spaceName)
    ensures r.spaceLevel == (if req.spaceLevel.None? then Some(LevelValue(CommonLevel)) else req.spaceLevel)
    ensures r.id == None && r.userId == None
    ensures LevelFromValue(r.spaceLevel).Some? ==> r.maxSize.Some? && r.maxCount.Some?
  {
    var space := Space(None, req.spaceName, req.spaceLevel, None, None, None);
    var named := if Blank(space.spaceName) then space.(spaceName := Some(DefaultSpaceName)) else space;
    var levelled := if named.spaceLevel.None? then named.(spaceLevel := Some(LevelValue(CommonLevel))) else named;
    FillSpaceBySpaceLevel(levelled)
  }

  /** The defaults leave only two ways for addSpace's validation to fail: a
      name over 30 characters or an unknown level. */
  lemma PreparedSpaceFailsOnlyOnLengthOrLevel(req: SpaceAddRequest)
    ensures var v := ValidSpace(Some(PreparedSpace(req)), true);
      v.Fail? <==>
        (!Blank(req.spaceName) && JavaLength(req.spaceName.value) > MaxSpaceNameLength)
        || (req.spaceLevel.Some? && LevelFromValue(req.spaceLevel).None?)
  {
    var s := PreparedSpace(req);
    assert !Blank(s.spaceName) by {
      if Blank(req.spaceName) {
        assert s.spaceName == Some(DefaultSpaceName);
        assert DefaultSpaceName[0] == '默';
      }
    }
    if Blank(req.spaceName) {
      JavaLengthOfBmp(DefaultSpaceName);
    }
  }

  /** Whether some space already records uid as its owner. */
  predicate HasSpace(spaces: map<int, Space>, uid: int) {
    exists k :: k in spaces && spaces[k].userId == Some(uid)
  }

  /** updateById on the space table: non-null columns overwrite. */
  function MergeSpace(stored: Space, update: Space): Space {
    Space(Pick(stored.id, update.id), Pick(stored.spaceName, update.spaceName),
          Pick(stored.spaceLevel, update.spaceLevel), Pick(stored.maxSize, update.maxSize),
          Pick(stored.maxCount, update.maxCount), Pick(stored.userId, update.userId))
  }

  /** saveOrUpdate of a space that carries an id: an update of the row with
      that id when there is one, else an insert under that id. */
  function SaveSpaceWithId(spaces: map<int, Space>, s: Space): (r: map<int, Space>)
    requires s.id.Some?
    ensures r.Keys == spaces.Keys + {s.id.value}
    ensures r[s.id.value] == if s.id.value in spaces then MergeSpace(spaces[s.id.value], s) else s
    ensures forall k :: k in spaces && k != s.id.value ==> r[k] == spaces[k]
  {
    var id := s.id.value;
    if id in spaces then spaces[id := MergeSpace(spaces[id], s)] else spaces[id := s]
  }

  datatype Added = Added(result: Result<int>, spaces: map<int, Space>)

  const OneSpaceMessage: string := "一个用户仅能有一个私有空间"
  const LevelNoAuthMessage: string := "无权限创建指定级别的空间"

  /** The checks addSpace makes before its insert, shared by the code as
      written and the corrected one: a request, a valid prepared space, a
      caller, and the administrator for a level above common. */
  function AddCheck(req: Option<SpaceAddRequest>, loginUser: Option<Users.User>): (r: Outcome)
    ensures r == Pass <==>
      req.Some? && ValidSpace(Some(PreparedSpace(req.value)), true) == Pass && loginUser.Some?
      && (PreparedSpace(req.value).spaceLevel == Some(LevelValue(CommonLevel)) || Users.IsAdmin(loginUser))
    ensures req.Some? && ValidSpace(Some(PreparedSpace(req.value)), true) == Pass && loginUser.Some?
            && PreparedSpace(req.value).spaceLevel != Some(LevelValue(CommonLevel)) && !Users.IsAdmin(loginUser)
            ==> r == Fails(NoAuthError, LevelNoAuthMessage)
  {
    if req.None? then Fails(Uncaught, "IllegalArgumentException")
    else
      var space := PreparedSpace(req.value);
      var valid := ValidSpace(Some(space), true);
      if valid.Fail? then valid
      else if loginUser.None? then Fails(Uncaught, "NullPointerException")
      else if space.spaceLevel.value != LevelValue(CommonLevel) && !Users.IsAdmin(loginUser) then
        Fails(NoAuthError, LevelNoAuthMessage)
      else Pass
  }

  /** addSpace as written: the caller's id is put in the space's id column,
      the owner column stays null, and the one-space check looks at the
      owner column. */
  function AddSpaceAsWritten(spaces: map<int, Space>, req: Option<SpaceAddRequest>, loginUser: Option<Users.User>)
    : (r: Added)
    ensures AddCheck(req, loginUser).Fail? ==> r == Added(Err(AddCheck(req, loginUser).error), spaces)
    ensures AddCheck(req, loginUser).Pass? && HasSpace(spaces, loginUser.value.id) ==>
      r == Added(Err(Error(ParamsError, OneSpaceMessage)), spaces)
    ensures AddCheck(req, loginUser).Pass? && !HasSpace(spaces, loginUser.value.id) ==>
      r.result == Ok(loginUser.value.id)
      && r.spaces == SaveSpaceWithId(spaces, PreparedSpace(req.value).(id := Some(loginUser.value.id)))
  {
    var check := AddCheck(req, loginUser);
    if check.Fail? then Added(Err(check.error), spaces)
    else
      var userId := loginUser.value.id;
      var space := PreparedSpace(req.value).(id := Some(userId));
      if HasSpace(spaces, userId) then Added(Err(Error(ParamsError, OneSpaceMessage)), spaces)
      else Added(Ok(userId), SaveSpaceWithId(spaces, space))
  }

  /** As written, no space ever records the caller as owner, so a second
      request by the same user is accepted as well and overwrites the first
      space: the one-space rule is not enforced. */
  lemma AsWrittenSecondAddSucceeds(spaces: map<int, Space>, req1: SpaceAddRequest, req2: SpaceAddRequest,
                                   user: Users.User)
    requires AddSpaceAsWritten(spaces, Some(req1), Some(user)).result.Ok?
    requires AddCheck(Some(req2), Some(user)).Pass?
    ensures var first := AddSpaceAsWritten(spaces, Some(req1), Some(user));
      var second := AddSpaceAsWritten(first.spaces, Some(req2), Some(user));
      && second.result == Ok(user.id)
      && second.spaces.Keys == first.spaces.Keys
      && second.spaces[user.id].spaceName == PreparedSpace(req2).spaceName
  {
    var first := AddSpaceAsWritten(spaces, Some(req1), Some(user));
    var s1 := PreparedSpace(req1).(id := Some(user.id));
    assert first.spaces == SaveSpaceWithId(spaces, s1);
    assert !HasSpace(first.spaces, user.id) by {
      forall k | k in first.spaces ensures first.spaces[k].userId != Some(user.id) {
        if k != user.id {
          assert first.spaces[k] == spaces[k];
        }
      }
    }
  }

  /** The concrete case: an empty table, one ordinary user, two requests
      with no name and no level. Both succeed; the second overwrites the
      first, so the table holds one space, under the user's id, with no
      owner recorded. */
  lemma AsWrittenSecondAddOverwrites()
    ensures var user := Users.User(7, Some("alice"), None, None, Some("user"), None);
      var req := SpaceAddRequest(None, None);
      var first := AddSpaceAsWritten(map[], Some(req), Some(user));
      var second := AddSpaceAsWritten(first.spaces, Some(req), Some(user));
      && first.result == Ok(7)
      && second.result == Ok(7)
      && second.spaces.Keys == {7}
      && second.spaces[7].userId == None
  {
    var user := Users.User(7, Some("alice"), None, None, Some("user"), None);
    var req := SpaceAddRequest(None, None);
    PreparedSpaceFailsOnlyOnLengthOrLevel(req);
    assert AddCheck(Some(req), Some(user)).Pass?;
    assert !HasSpace(map[], 7);
    AsWrittenSecondAddSucceeds(map[], req, req, user);
  }

  /** addSpace as intended: the caller is recorded as the owner and the
      store assigns the new space's id (newId, not yet used). */
  function AddSpace(spaces: map<int, Space>, req: Option<SpaceAddRequest>, loginUser: Option<Users.User>, newId: int)
    : (r: Added)
    requires newId !in spaces
    ensures AddCheck(req, loginUser).Fail? ==> r == Added(Err(AddCheck(req, loginUser).error), spaces)
    ensures AddCheck(req, loginUser).Pass? && HasSpace(spaces, loginUser.value.id) ==>
      r == Added(Err(Error(ParamsError, OneSpaceMessage)), spaces)
    ensures AddCheck(req, loginUser).Pass? && !HasSpace(spaces, loginUser.value.id) ==>
      r.result == Ok(newId)
      && r.spaces == spaces[newId := PreparedSpace(req.value).(id := Some(newId), userId := Some(loginUser.value.id))]
  {
    var check := AddCheck(req, loginUser);
    if check.Fail? then Added(Err(check.error), spaces)
    else
      var userId := loginUser.value.id;
      if HasSpace(spaces, userId) then Added(Err(Error(ParamsError, OneSpaceMessage)), spaces)
      else Added(Ok(newId), spaces[newId := PreparedSpace(req.value).(id := Some(newId), userId := Some(userId))])
  }

  /** Every user owns at most one space. */
  ghost predicate OneSpacePerUser(spaces: map<int, Space>) {
    forall i, j :: i in spaces && j in spaces && spaces[i].userId.Some? && spaces[i].userId == spaces[j].userId
                   ==> i == j
  }

  /** The intended addSpace keeps every user at one space at most. */
  lemma AddSpaceKeepsOneSpacePerUser(spaces: map<int, Space>, req: Option<SpaceAddRequest>,
                                     loginUser: Option<Users.User>, newId: int)
    requires newId !in spaces && OneSpacePerUser(spaces)
    ensures OneSpacePerUser(AddSpace(spaces, req, loginUser, newId).spaces)
  {
    var r := AddSpace(spaces, req, loginUser, newId);
    if AddCheck(req, loginUser).Pass? && !HasSpace(spaces, loginUser.value.id) {
      var uid := loginUser.value.id;
      assert forall k :: k in spaces ==> spaces[k].userId != Some(uid);
    }
  }

  /** After a successful intended addSpace, a second one by the same user is
      refused and changes nothing. */
  lemma AddSpaceSecondAddRejected(spaces: map<int, Space>, req1: SpaceAddRequest, req2: Option<SpaceAddRequest>,
                                  user: Users.User, id1: int, id2: int)
    requires id1 !in spaces && id2 !in spaces && id2 != id1
    requires AddSpace(spaces, Some(req1), Some(user), id1).result.Ok?
    requires AddCheck(req2, Some(user)).Pass?
    ensures var first := AddSpace(spaces, Some(req1), Some(user), id1);
      AddSpace(first.spaces, req2, Some(user), id2) == Added(Err(Error(ParamsError, OneSpaceMessage)), first.spaces)
  {
    var first := AddSpace(spaces, Some(req1), Some(user), id1);
    assert first.spaces[id1].userId == Some(user.id);
    assert HasSpace(first.spaces, user.id);
  }

  // ---------------------------------------------------------------- getSpaceVOPage

  datatype SpacePage = SpacePage(current: int, size: int, total: int, records: seq<Space>)

  datatype SpaceVO = SpaceVO(space: Space, user: Option<Users.UserVO>)

  datatype SpaceVOPage = SpaceVOPage(current: int, size: int, total: int, records: seq<SpaceVO>)

  function AttachOwners(records: seq<Space>, users: map<int, Users.User>): (r: seq<SpaceVO>)
    ensures |r| == |records|
    ensures forall i :: 0 <= i < |records| ==> r[i] == SpaceVO(records[i], Users.UserViewById(users, records[i].userId))
  {
    if records == [] then [] else [SpaceVO(records[0], Users.UserViewById(users, records[0].userId))] + AttachOwners(records[1..], users)
  }

  /** getSpaceVOPage: the same page numbers, the records in order, each
      with its owner's view or none. */
  function GetSpaceVOPage(page: SpacePage, users: map<int, Users.User>): (r: SpaceVOPage)
    ensures r.current == page.current && r.size == page.size && r.total == page.total
    ensures |r.records| == |page.records|
    ensures forall i :: 0 <= i < |page.records| ==>
      r.records[i].space == page.records[i]
      && r.records[i].user == (if page.records[i].userId.Some? && page.records[i].userId.value in users
                               then Some(Users.View(users[page.records[i].userId.value])) else None)
  {
    if page.records == [] then SpaceVOPage(page.current, page.size, page.total, [])
    else SpaceVOPage(page.current, page.size, page.total, AttachOwners(page.records, users))
  }

  // ---------------------------------------------------------------- the service

  class SpaceService {
    var spaces: map<int, Space>

    constructor (spaces0: map<int, Space>)
      ensures spaces == spaces0
    {
      spaces := spaces0;
    }

    /** addSpace as the code is written; the lock and the transaction make
        the check and the insert one step. */
    method AddSpace(req: Option<SpaceAddRequest>, loginUser: Option<Users.User>) returns (r: Result<int>)
      modifies this`spaces
      ensures Added(r, spaces) == AddSpaceAsWritten(old(spaces), req, loginUser)
    {
      if req.None? {
        return Err(Error(Uncaught, "IllegalArgumentException"));
      }
      var space := Space(None, req.value.spaceName, req.value.spaceLevel, None, None, None);
      if Blank(space.spaceName) {
        space := space.(spaceName := Some(DefaultSpaceName));
      }
      if space.spaceLevel.None? {
        space := space.(spaceLevel := Some(LevelValue(CommonLevel)));
      }
      space := FillSpaceBySpaceLevel(space);
      var valid := ValidSpace(Some(space), true);
      if valid.Fail? {
        return Err(valid.error);
      }
      if loginUser.None? {
        return Err(Error(Uncaught, "NullPointerException"));
      }
      var userId := loginUser.value.id;
      space := space.(id := Some(userId));
      if space.spaceLevel.value != LevelValue(CommonLevel) && !Users.IsAdmin(loginUser) {
        return Err(Error(NoAuthError, LevelNoAuthMessage));
      }
      if HasSpace(spaces, userId) {
        return Err(Error(ParamsError, OneSpaceMessage));
      }
      spaces := SaveSpaceWithId(spaces, space);
      r := Ok(userId);
    }
  }
}
