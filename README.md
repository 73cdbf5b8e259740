# gqz-picture backend core in Dafny

This project models the core of the gqz-picture backend, a Spring service for a picture library. It covers:
- the user service: registration, login, the session and the role check of the role annotation;
- the upload pipeline: the validation of URLs and multipart files, the object key, the COS put request with its thumbnail rule, and the temporary file;
- the picture service: the owner checks, the record an upload writes, moderation, the read-through cache of the public listing, batch import from a search page, and the cleanup target of a deleted file;
- the picture controller's delete, edit and page endpoints;
- private spaces: quota levels, validation, and the one-space-per-user rule.

Modelling choices:
- Records the source fills with setters are datatype values. Every nullable column is an `Option`.
- Each table is a `map<int, Record>` field of its service class. `updateById` merges the non-null columns into the stored row.
- A thrown `BusinessException` is `Error(code, message)`. An unchecked exception, such as a NullPointerException from unboxing a null, is the code `Uncaught`.
- Everything outside the process becomes a parameter: the HTTP HEAD response, the COS put result, the page fetched for a batch, MD5, JSON serialisation, the clock and the random TTL jitter.
- Java string lengths are counted in UTF-16 units (`Common.JavaLength`).
- The service classes follow the code as written. Where verification showed a defect, a corrected definition sits beside the as-written one (see "## Findings").

Where the code and its own comments or messages disagree, the model follows the code:
- `doPictureReview` (PictureServiceImpl.java:343-345) refuses a review only when it repeats the picture's current status. Nothing stops a review from changing a decision already made, so an approved picture can later be rejected (`Pictures.FinalStatusCanBeReversed`).
- The comment at SpaceServiceImpl.java:76 and the message at line 85 promise at most one private space per user. The code does not keep that promise (first row of "## Findings").
- A comment gives the cache entry a 5 to 10 minute lifetime. The code draws `RandomUtil.randomInt(0, 300)`, which is 0 to 299 seconds, and the model keeps that range. A draw of 0 is an expiry Redis refuses (fourth row of "## Findings").
- A comment speaks of a 20 KB thumbnail threshold. The code compares the size with 2048 bytes.
- A batch `count` below 1 still uploads one picture when some candidate succeeds, because the loop only tests the count after an upload (`Pictures.BatchFromNonPositiveCount`).

## Model

| member | source | states |
|---|---|---|
| Users.IsAdmin | src/main/java/com/gzu/gqzpicturebackend/service/impl/UserServiceImpl.java:255-257 | a user is an administrator exactly when the user is present and the role is "admin" |
| Users.GetUserVO | src/main/java/com/gzu/gqzpicturebackend/service/impl/UserServiceImpl.java:161-168 | a null user gives null; otherwise the view copies the public columns and no password |
| Users.GetUserVOList | src/main/java/com/gzu/gqzpicturebackend/service/impl/UserServiceImpl.java:176-184 | one view per user, with the same length and order, and a null entry stays null |
| Users.RegisterGuard | src/main/java/com/gzu/gqzpicturebackend/service/impl/UserServiceImpl.java:47-59 | blank fields, an account shorter than 4, passwords shorter than 8 and non-matching passwords are each refused with PARAMS_ERROR, and anything else passes |
| Users.LoginGuard | src/main/java/com/gzu/gqzpicturebackend/service/impl/UserServiceImpl.java:94-102 | blank fields, a short account and a short password are refused, and anything else passes |
| Users.WideSpaceAccountRefused | src/main/java/com/gzu/gqzpicturebackend/service/impl/UserServiceImpl.java:47-49 | an account of four em spaces is blank to hutool, so registration refuses it with "参数为空" and login refuses it too |
| Users.RegisterGuardImpliesLoginGuard | src/main/java/com/gzu/gqzpicturebackend/service/impl/UserServiceImpl.java:47-102 | credentials that registration accepts pass the login checks |
| Users.EncryptPassword | src/main/java/com/gzu/gqzpicturebackend/service/impl/UserServiceImpl.java:127-131 | definition: the digest of the salt followed by the password, the digest being a parameter; `RegisteredUserMatchesLogin` rests on registration and login both using it |
| Users.RegisteredUserMatchesLogin | src/main/java/com/gzu/gqzpicturebackend/service/impl/UserServiceImpl.java:104-113 | the user registration stores is found by a login with the same account and password |
| Users.CurrentUser | src/main/java/com/gzu/gqzpicturebackend/service/impl/UserServiceImpl.java:141-152 | NOT_LOGIN_ERROR exactly when the session holds no user or the user is no longer in the table; otherwise the stored row |
| Users.UserService.Register | src/main/java/com/gzu/gqzpicturebackend/service/impl/UserServiceImpl.java:45-80 | a refused request or a taken account leaves the table unchanged; otherwise exactly one row is added under the new id, with the digest and the default role, and accounts stay unique |
| Users.UserService.Login | src/main/java/com/gzu/gqzpicturebackend/service/impl/UserServiceImpl.java:92-118 | a refused request or no matching row fails with the session unchanged; two matching rows make the lookup throw; a single match is put in the session and its view is returned |
| Users.UserService.GetLoginUser | src/main/java/com/gzu/gqzpicturebackend/service/impl/UserServiceImpl.java:139-153 | the result is CurrentUser of the session and the table, and nothing changes |
| Users.UserService.Logout | src/main/java/com/gzu/gqzpicturebackend/service/impl/UserServiceImpl.java:208-217 | without a logged-in user it fails with OPERATION_ERROR; otherwise the session is cleared |
| UserRoles.FindByValue | src/main/java/com/gzu/gqzpicturebackend/model/enums/UserRoleEnum.java:34-39 | the role found has that value, and none is found only when no role has it |
| UserRoles.GetEnumByValue | src/main/java/com/gzu/gqzpicturebackend/model/enums/UserRoleEnum.java:30-40 | an empty value gives null; otherwise the role with that value, in both directions |
| UserRoles.GetEnumByValueOfValue | src/main/java/com/gzu/gqzpicturebackend/model/enums/UserRoleEnum.java:12-40 | each role is found again from its value |
| Auth.DoInterceptor | src/main/java/com/gzu/gqzpicturebackend/aop/AuthInterceptor.java:38-61 | without a login the login error propagates; an unknown required role lets the call through; otherwise it proceeds exactly when the user's role is known and either no admin is required or the user is one |
| Auth.AdminAlwaysProceeds | src/main/java/com/gzu/gqzpicturebackend/aop/AuthInterceptor.java:47-60 | a logged-in administrator passes every role check |
| Auth.UserRefusedOnlyForAdmin | src/main/java/com/gzu/gqzpicturebackend/aop/AuthInterceptor.java:51-60 | an ordinary user is refused with NO_AUTH_ERROR exactly when the administrator role is required |
| UrlUpload.HeaderChecks | src/main/java/com/gzu/gqzpicturebackend/manage/upload/UrlPictureUpload.java:62-80 | a non-blank Content-Type outside the image types is refused; a non-blank Content-Length is refused when it does not parse as a long or exceeds 2 MiB; anything else passes |
| UrlUpload.ValidPicture | src/main/java/com/gzu/gqzpicturebackend/manage/upload/UrlPictureUpload.java:39-87 | a blank URL, a malformed URL, a scheme other than http or https, are each refused with their message; a HEAD request that throws propagates; a non-200 status passes without looking at headers; otherwise the header checks decide |
| UrlUpload.OriginalFilename | src/main/java/com/gzu/gqzpicturebackend/manage/upload/UrlPictureUpload.java:33-36 | the original name is the last path segment of the URL |
| UrlUpload.NonOkStatusSkipsHeaders | src/main/java/com/gzu/gqzpicturebackend/manage/upload/UrlPictureUpload.java:57-60 | a response whose status is not 200 passes whatever its headers are |
| UrlUpload.TypeCheckedBeforeLength | src/main/java/com/gzu/gqzpicturebackend/manage/upload/UrlPictureUpload.java:62-80 | a bad Content-Type is reported even when the length is also bad |
| UrlUpload.OversizeLengthRefused | src/main/java/com/gzu/gqzpicturebackend/manage/upload/UrlPictureUpload.java:71-80 | a response with an accepted type and a length above 2 MiB is refused with the size message |
| Common.ParseLong | src/main/java/com/gzu/gqzpicturebackend/manage/upload/UrlPictureUpload.java:74 | a text parses exactly when it is an optionally signed, non-empty run of ASCII digits whose value lies in the Java long range, the negative side reaching one further; it parses to that value, negated after a minus |
| Cos.PutPictureObject | src/main/java/com/gzu/gqzpicturebackend/manage/CosManager.java:60-93 | the request always asks for image info and a webp compression rule whose file id is MainName(key) + ".webp"; a thumbnail rule with file id MainName(key) + "_thumbnail." + Suffix(key) is added exactly when the file is larger than 2048 bytes |
| Cos.DerivedFileIdsHaveNoDirectory | src/main/java/com/gzu/gqzpicturebackend/manage/CosManager.java:71-86 | the derived file names are bare names with no directory |
| UploadTypes.UploadPath | src/main/java/com/gzu/gqzpicturebackend/manage/upload/PictureUploadTemplate.java:47-52 | the key lies under the directory prefix + "/"; its main name and suffix are given by `UploadPathParts` |
| UploadTypes.UploadPathParts | src/main/java/com/gzu/gqzpicturebackend/manage/upload/PictureUploadTemplate.java:47-52 | the key's main name is {date}_{digits}, and its suffix is the suffix of the original name |
| UploadTypes.UploadPathIgnoresMainName | src/main/java/com/gzu/gqzpicturebackend/manage/upload/PictureUploadTemplate.java:47-52 | two names with the same suffix give the same key |
| UploadTemplate.ThumbnailObject | src/main/java/com/gzu/gqzpicturebackend/manage/upload/PictureUploadTemplate.java:68-74 | with one processed object it stands for both the compressed copy and the thumbnail; with two or more the second is the thumbnail |
| UploadTemplate.StoredResult | src/main/java/com/gzu/gqzpicturebackend/manage/upload/PictureUploadTemplate.java:62-83 | with processed objects the result takes its URL and measurements from the first one (the compressed copy) and its thumbnail from the thumbnail object; without them it is built from the original image; any failure is the one SYSTEM_ERROR |
| UploadTemplate.UploadOutcome | src/main/java/com/gzu/gqzpicturebackend/manage/upload/PictureUploadTemplate.java:43-88 | a refused input fails with the validation error before anything is stored; otherwise the stored result |
| UploadTemplate.PictureUploader.UploadPicture | src/main/java/com/gzu/gqzpicturebackend/manage/upload/PictureUploadTemplate.java:43-88 | the result is UploadOutcome of the inputs, and the temporary file is always deleted, so it stays behind only when the deletion fails; a put request is sent exactly when the source passed, a temporary file exists and the fetch succeeded, and it goes to the bucket under the upload path, with a thumbnail rule only above 2048 bytes |
| UploadTemplate.NothingLeftWhenDeleteSucceeds | src/main/java/com/gzu/gqzpicturebackend/manage/upload/PictureUploadTemplate.java:84-87 | when the deletion succeeds no file is left and no error is logged |
| UploadTemplate.SingleObjectIsOwnThumbnail | src/main/java/com/gzu/gqzpicturebackend/manage/upload/PictureUploadTemplate.java:69-74 | with a single processed object the thumbnail URL equals the picture URL |
| UploadTemplate.OriginalUrlKeepsOnlyTheSuffix | src/main/java/com/gzu/gqzpicturebackend/manage/upload/PictureUploadTemplate.java:120-138 | the URL of a picture built from the original is host/key, and its suffix is the original name's suffix |
| TempFiles.TempDir.CreateTempFile | src/main/java/com/gzu/gqzpicturebackend/manage/upload/PictureUploadTemplate.java:57 | a created file is added to the directory, and with no name nothing changes |
| TempFiles.TempDir.DeleteTempFile | src/main/java/com/gzu/gqzpicturebackend/manage/upload/PictureUploadTemplate.java:175-186 | a null file does nothing; a successful deletion removes the file; a failed one keeps it and logs its name |
| FileManager.ValidMultipart | src/main/java/com/gzu/gqzpicturebackend/manage/FileManager.java:108-121 | a missing file, one over 2 MiB, and one without a listed suffix are each refused with their message, and anything else passes |
| FileManager.StoredOriginal | src/main/java/com/gzu/gqzpicturebackend/manage/FileManager.java:65-95 | any failure is the one SYSTEM_ERROR; otherwise the result of the original image under host/key with the original's main name |
| FileManager.FileManagerService.UploadPicture | src/main/java/com/gzu/gqzpicturebackend/manage/FileManager.java:53-100 | a refused file changes nothing; otherwise the stored original, with the temporary file kept only when its deletion fails; the put request is sent exactly when the file passed, a temporary file exists and the transfer succeeded, and it goes to the bucket under the upload path of the original name, with a thumbnail rule only above 2048 bytes |
| FileManager.FileManagerService.UploadPictureByUrl | src/main/java/com/gzu/gqzpicturebackend/manage/FileManager.java:149-198 | a refused URL changes nothing; otherwise the stored original under the key built from the URL's main name, as written; the put request is sent exactly when the URL passed, a temporary file exists and the download succeeded, and it goes to the bucket under that key, with a thumbnail rule only above 2048 bytes |
| FileManager.UrlUploadPathAsWritten | src/main/java/com/gzu/gqzpicturebackend/manage/FileManager.java:155-159 | definition: the key built from the URL's main name, as written; `UrlUploadPathLosesExtension` shows what it loses |
| FileManager.UrlUploadPath | src/main/java/com/gzu/gqzpicturebackend/manage/FileManager.java:155-159 | definition: the corrected key, built from the URL's last path segment; `UrlUploadPathKeepsExtension` shows it keeps the extension |
| FileManager.UrlUploadPathLosesExtension | src/main/java/com/gzu/gqzpicturebackend/manage/FileManager.java:155-159 | for a URL ending in name.ext, the as-written key ends in a bare dot and has an empty suffix |
| FileManager.UrlUploadPathKeepsExtension | src/main/java/com/gzu/gqzpicturebackend/manage/FileManager.java:155-159 | a key built from the URL's last segment keeps ext as its suffix |
| ReviewStatuses.FromValue | src/main/java/com/gzu/gqzpicturebackend/service/impl/PictureServiceImpl.java:335 | the state found has that value, and null or an unknown value gives none |
| ReviewStatuses.FromValueOfValue | src/main/java/com/gzu/gqzpicturebackend/service/impl/PictureServiceImpl.java:335 | each state is found again from its value |
| Pictures.Merge | src/main/java/com/gzu/gqzpicturebackend/service/impl/PictureServiceImpl.java:351 | definition of updateById: each non-null column of the update replaces the stored one, and a null column keeps it; `MergeIdempotent` is proved about it |
| Pictures.MergeIdempotent | src/main/java/com/gzu/gqzpicturebackend/service/impl/PictureServiceImpl.java:178 | merging the same update twice gives the same row as merging it once |
| Pictures.SaveOrUpdate | src/main/java/com/gzu/gqzpicturebackend/service/impl/PictureServiceImpl.java:178 | a record with no id or an unknown id is inserted; a known id is merged into its row; no other row changes |
| Pictures.SaveOrUpdateKeepsIds | src/main/java/com/gzu/gqzpicturebackend/service/impl/PictureServiceImpl.java:178 | saveOrUpdate keeps every row stored under its own id, and adds at most one key |
| Pictures.ValidPicture | src/main/java/com/gzu/gqzpicturebackend/service/impl/PictureServiceImpl.java:96-114 | a null picture, a missing id, a URL over 1024 characters and an introduction over 800 characters are each refused, and anything else passes |
| Pictures.FillReviewParams | src/main/java/com/gzu/gqzpicturebackend/service/impl/PictureServiceImpl.java:362-376 | an administrator's picture is passed with the reviewer and the time set; anyone else's is set to reviewing; nothing else changes |
| Pictures.OwnerGuard | src/main/java/com/gzu/gqzpicturebackend/service/impl/PictureServiceImpl.java:137-142 | an unknown id gives NOT_FOUND_ERROR; otherwise the call passes exactly when the caller owns the picture or is an administrator |
| Pictures.UploadGuard | src/main/java/com/gzu/gqzpicturebackend/service/impl/PictureServiceImpl.java:128-143 | without a user the call fails with NO_AUTH_ERROR; a request without an id passes; with an id the owner check decides |
| Pictures.NewUploadIgnoresStore | src/main/java/com/gzu/gqzpicturebackend/service/impl/PictureServiceImpl.java:130-143 | a request without an id passes whatever the table holds |
| Pictures.UploadPrefixInjective | src/main/java/com/gzu/gqzpicturebackend/service/impl/PictureServiceImpl.java:146 | distinct users get distinct upload directories |
| Pictures.NewRecord | src/main/java/com/gzu/gqzpicturebackend/service/impl/PictureServiceImpl.java:154-177 | the record carries the upload's URL, name and measurements and the caller as owner; a re-upload carries the request's id and an edit time |
| Pictures.ReuploadKeepsStaleReviewer | src/main/java/com/gzu/gqzpicturebackend/service/impl/PictureServiceImpl.java:170-178 | when a user re-uploads a picture an administrator passed, the row returns to reviewing but keeps the old reviewer and review time |
| Pictures.PictureService.UploadPicture | src/main/java/com/gzu/gqzpicturebackend/service/impl/PictureServiceImpl.java:126-181 | a failed check or upload leaves the table unchanged; otherwise the table is SaveOrUpdate of the new record, and the record is returned with its id; the temporary file stays only when its deletion fails |
| Pictures.ReviewCheck | src/main/java/com/gzu/gqzpicturebackend/service/impl/PictureServiceImpl.java:332-345 | a null request, a missing id, an unknown state and a request to set "reviewing" are refused with PARAMS_ERROR; an unknown picture gives NOT_FOUND_ERROR; repeating the current state is refused; anything else passes |
| Pictures.PictureService.DoPictureReview | src/main/java/com/gzu/gqzpicturebackend/service/impl/PictureServiceImpl.java:330-353 | a refused review changes nothing; otherwise exactly the review columns of that picture are replaced |
| Pictures.RepeatReviewRejected | src/main/java/com/gzu/gqzpicturebackend/service/impl/PictureServiceImpl.java:343-351 | a second identical review of a picture is refused |
| Pictures.ReviewSetsFinalStatus | src/main/java/com/gzu/gqzpicturebackend/service/impl/PictureServiceImpl.java:336-351 | an accepted review leaves the picture passed or rejected, with the reviewer and the time recorded |
| Pictures.FinalStatusCanBeReversed | src/main/java/com/gzu/gqzpicturebackend/service/impl/PictureServiceImpl.java:336-345 | a passed picture can be rejected by a later review |
| Pictures.IndexOf | src/main/java/com/gzu/gqzpicturebackend/service/impl/PictureServiceImpl.java:421 | the index of the first question mark, or -1 when there is none |
| Pictures.CutAtQuery | src/main/java/com/gzu/gqzpicturebackend/service/impl/PictureServiceImpl.java:421-424 | the URL before its first question mark; the result has no question mark and is a prefix of the URL |
| Pictures.BatchFrom | src/main/java/com/gzu/gqzpicturebackend/service/impl/PictureServiceImpl.java:412-441 | reference definition of the batch loop: skip blank and failed candidates, number each success, stop once the count is reached; `ProcessCandidates` is proved equal to it, and `BatchFromShape`, `BatchFromBound`, `BatchFromCount` and `BatchNamesDistinct` characterise it |
| Pictures.BatchFromShape | src/main/java/com/gzu/gqzpicturebackend/service/impl/PictureServiceImpl.java:412-441 | uploads are named prefix1, prefix2, ... in order, and their URLs have no query part |
| Pictures.BatchFromBound | src/main/java/com/gzu/gqzpicturebackend/service/impl/PictureServiceImpl.java:439-441 | the loop stops after count uploads, and after one when count is below 1 |
| Pictures.BatchFromCount | src/main/java/com/gzu/gqzpicturebackend/service/impl/PictureServiceImpl.java:412-441 | with a positive count the number of uploads is the smaller of count and the number of candidates that upload |
| Pictures.BatchFromNonPositiveCount | src/main/java/com/gzu/gqzpicturebackend/service/impl/PictureServiceImpl.java:412-441 | with a count below 1 the batch uploads exactly one picture when some candidate succeeds, and none otherwise |
| Pictures.BatchNamesDistinct | src/main/java/com/gzu/gqzpicturebackend/service/impl/PictureServiceImpl.java:429 | no two uploads of one batch get the same name |
| Pictures.ProcessCandidates | src/main/java/com/gzu/gqzpicturebackend/service/impl/PictureServiceImpl.java:412-442 | the loop over the candidates produces exactly the uploads BatchFrom describes |
| Pictures.UploadPictureByBatch | src/main/java/com/gzu/gqzpicturebackend/service/impl/PictureServiceImpl.java:385-445 | a null request and a count over 30 are refused; a failed fetch or a page without the container fails with OPERATION_ERROR; otherwise the number of uploads is the min of count and the usable candidates, with names and URLs as above |
| Pictures.PublicQuery | src/main/java/com/gzu/gqzpicturebackend/service/impl/PictureServiceImpl.java:459 | the query the cached listing runs is the caller's with its review status set to PASS, and nothing else changed |
| Pictures.CacheKey | src/main/java/com/gzu/gqzpicturebackend/service/impl/PictureServiceImpl.java:462-464 | every key starts with the prefix gqzpicture:listPictureVOByPage: |
| Pictures.CacheKeyIgnoresReviewStatus | src/main/java/com/gzu/gqzpicturebackend/service/impl/PictureServiceImpl.java:459-463 | the cache key does not depend on the review status the caller sent, because the query is forced to "passed" first |
| Pictures.ReadThrough | src/main/java/com/gzu/gqzpicturebackend/service/impl/PictureServiceImpl.java:465-492 | a hit in the local cache is returned; a Redis hit is copied to the local cache; a miss with a positive lifetime returns the loaded page and writes it to both caches, with that lifetime on the Redis entry; a miss with a lifetime of 0 or less throws and writes nothing; a successful read leaves its page in the local cache |
| Pictures.ReadThroughIdempotent | src/main/java/com/gzu/gqzpicturebackend/service/impl/PictureServiceImpl.java:465-492 | after a successful read, a second read of the same key returns the same page and changes nothing; after a failed read, a second read behaves as a first one |
| Pictures.ReadThroughKeepsTtlsInRange | src/main/java/com/gzu/gqzpicturebackend/service/impl/PictureServiceImpl.java:486-490 | with a lifetime drawn from 0 to 299 seconds, every Redis entry has a lifetime and each one stays between 1 and 299 seconds |
| Pictures.ZeroExpiryMissFails | src/main/java/com/gzu/gqzpicturebackend/service/impl/PictureServiceImpl.java:486-490 | as written, a miss on both tiers whose random lifetime is 0 throws and leaves both caches unchanged |
| Pictures.IntendedTtlMissSucceeds | src/main/java/com/gzu/gqzpicturebackend/service/impl/PictureServiceImpl.java:488-490 | with the 5 to 10 minute lifetime the comment describes, every miss returns the loaded page and stores it with a lifetime of 300 to 599 seconds |
| Pictures.PictureService.ListPictureVOByPageWithCache | src/main/java/com/gzu/gqzpicturebackend/service/impl/PictureServiceImpl.java:455-492 | the caches change exactly as ReadThrough of the public query's key says, and the page or exception returned is ReadThrough's |
| Pictures.CleanupTargets | src/main/java/com/gzu/gqzpicturebackend/service/impl/PictureServiceImpl.java:507-515 | given the count's outcome: nothing is deleted when the count throws or exceeds 1; otherwise the URL is passed to the delete, and then the thumbnail URL when it is not blank |
| Pictures.CountWhere | src/main/java/com/gzu/gqzpicturebackend/service/impl/PictureServiceImpl.java:506 | a count on a column the table does not have throws; otherwise it is at most the number of rows, and zero for a null value |
| Pictures.CountOfTwoRows | src/main/java/com/gzu/gqzpicturebackend/service/impl/PictureServiceImpl.java:506-509 | two distinct rows with the value make the count at least 2 |
| Pictures.CleanPictureFileAsWritten | src/main/java/com/gzu/gqzpicturebackend/service/impl/PictureServiceImpl.java:503-515 | definition: the delete calls are `CleanupTargets` of the count on `pictureUrl`; `AsWrittenCleanupDeletesNothing` shows there are none |
| Pictures.AsWrittenCleanupDeletesNothing | src/main/java/com/gzu/gqzpicturebackend/service/impl/PictureServiceImpl.java:503-515 | as written, the count names the column `pictureUrl`, which the table does not have, so cleanup never deletes anything |
| Pictures.AsWrittenDeleteKeysAreUrls | src/main/java/com/gzu/gqzpicturebackend/service/impl/PictureServiceImpl.java:511 | even with a working count, the first delete is passed the whole URL, host included, and not the object's key |
| Pictures.ObjectKeyOfUrl | src/main/java/com/gzu/gqzpicturebackend/manage/upload/PictureUploadTemplate.java:128 | the key is recovered from a URL built as host + "/" + key |
| Pictures.UrlOfObjectKey | src/main/java/com/gzu/gqzpicturebackend/manage/upload/PictureUploadTemplate.java:128 | a recovered key rebuilds the URL it came from |
| Pictures.CleanupDeletesUploadedObjects | src/main/java/com/gzu/gqzpicturebackend/service/impl/PictureServiceImpl.java:503-515 | corrected cleanup: when at most one row uses the URL, the original and the thumbnail are deleted under the keys they were uploaded to |
| Pictures.CleanupKeepsSharedFile | src/main/java/com/gzu/gqzpicturebackend/service/impl/PictureServiceImpl.java:506-509 | corrected cleanup: while two rows share the URL, nothing is deleted |
| Pictures.CleanPictureFile | src/main/java/com/gzu/gqzpicturebackend/service/impl/PictureServiceImpl.java:503-515 | corrected cleanup: at most two deletes, each of an object whose URL host + "/" + key is the picture's URL or its thumbnail URL |
| Users.UserViewById | src/main/java/com/gzu/gqzpicturebackend/service/impl/PictureServiceImpl.java:233-239 | the owner's view is present exactly when the owner id is in the user table, and it is the view of that row; the space page uses the same lookup |
| Pictures.GetPictureVOPage | src/main/java/com/gzu/gqzpicturebackend/service/impl/PictureServiceImpl.java:210-247 | the page keeps its counters; there is one view per record, in order, each with its owner attached |
| PictureController.DeleteCheck | src/main/java/com/gzu/gqzpicturebackend/controller/PictureController.java:70-85 | a null request or an id of 0 or less gives PARAMS_ERROR, then the login, then NOT_FOUND_ERROR; the call passes exactly when the caller owns the picture or is an administrator |
| PictureController.WideIdNotDeletable | src/main/java/com/gzu/gqzpicturebackend/controller/PictureController.java:70-75 | the id of a delete request is a Java int, so a row whose id is above 2^31 - 1 is never the one the checks let through |
| PictureController.PictureController.DeletePicture | src/main/java/com/gzu/gqzpicturebackend/controller/PictureController.java:70-86 | a refused delete changes nothing; otherwise exactly that row is removed |
| PictureController.TagsColumn | src/main/java/com/gzu/gqzpicturebackend/controller/PictureController.java:107 | null tags stay null; a list is serialised |
| PictureController.EditRecord | src/main/java/com/gzu/gqzpicturebackend/controller/PictureController.java:104-109 | the update carries the request's columns, the serialised tags and the edit time, with every other column null |
| PictureController.EditCheck | src/main/java/com/gzu/gqzpicturebackend/controller/PictureController.java:98-120 | a null request and an id of 0 or less are refused, and a null id throws; then validation, the login and the owner check; the call passes exactly when all of them pass |
| PictureController.PictureController.EditPicture | src/main/java/com/gzu/gqzpicturebackend/controller/PictureController.java:98-125 | a refused edit changes nothing; otherwise the row is merged with the edit record |
| PictureController.EditValidatesBeforeLookup | src/main/java/com/gzu/gqzpicturebackend/controller/PictureController.java:100-116 | an edit that fails validation fails the same way for any caller and any table |
| PictureController.EditKeepsOwnerFileAndReview | src/main/java/com/gzu/gqzpicturebackend/controller/PictureController.java:104-122 | an edit keeps the owner, the files and the review state of the row, and only stamps the edit time |
| PictureController.ListPictureByPage | src/main/java/com/gzu/gqzpicturebackend/controller/PictureController.java:180-192 | the call succeeds exactly for an administrator with a page size of at most 20, and returns the page's views |
| PictureController.ListPictureByPageIsAdminOnly | src/main/java/com/gzu/gqzpicturebackend/controller/PictureController.java:181-187 | a successful listing was made by a logged-in administrator |
| PictureController.NegativePageSizePasses | src/main/java/com/gzu/gqzpicturebackend/controller/PictureController.java:186-187 | the size guard only bounds from above: an administrator's request with a negative size succeeds |
| PictureController.ListPictureTagCategory | src/main/java/com/gzu/gqzpicturebackend/controller/PictureController.java:200-207 | nine distinct tags, and ten categories in which only the fifth and the tenth coincide |
| Spaces.LevelFromValue | src/main/java/com/gzu/gqzpicturebackend/service/impl/SpaceServiceImpl.java:106 | the level found has that value, and null or an unknown value gives none |
| Spaces.LevelFromValueOfValue | src/main/java/com/gzu/gqzpicturebackend/service/impl/SpaceServiceImpl.java:106 | each level is found again from its value |
| Spaces.FillSpaceBySpaceLevel | src/main/java/com/gzu/gqzpicturebackend/service/impl/SpaceServiceImpl.java:235-249 | for a known level each unset quota takes the level's value and a set quota is kept; an unknown level changes nothing |
| Spaces.FillIdempotent | src/main/java/com/gzu/gqzpicturebackend/service/impl/SpaceServiceImpl.java:235-249 | filling twice is the same as filling once |
| Spaces.ValidSpace | src/main/java/com/gzu/gqzpicturebackend/service/impl/SpaceServiceImpl.java:101-124 | when adding, a blank name and a null level are refused; in both modes a name over 30 characters and an unknown level are refused; anything else passes |
| Spaces.PreparedSpace | src/main/java/com/gzu/gqzpicturebackend/service/impl/SpaceServiceImpl.java:58-67 | a blank name becomes the default name, a null level becomes the common level, and the quotas are filled |
| Spaces.PreparedSpaceFailsOnlyOnLengthOrLevel | src/main/java/com/gzu/gqzpicturebackend/service/impl/SpaceServiceImpl.java:58-69 | after the defaults are filled in, validation fails only for a name that is too long or an unknown level |
| Spaces.SaveSpaceWithId | src/main/java/com/gzu/gqzpicturebackend/service/impl/SpaceServiceImpl.java:87 | a row with an unknown id is inserted under that id; a known id is merged; no other row changes |
| Spaces.AddCheck | src/main/java/com/gzu/gqzpicturebackend/service/impl/SpaceServiceImpl.java:56-75 | a null request or user throws; validation errors propagate; a non-common level is refused with NO_AUTH_ERROR for non-administrators |
| Spaces.AddSpaceAsWritten | src/main/java/com/gzu/gqzpicturebackend/service/impl/SpaceServiceImpl.java:56-94 | as written: the row is saved under the user's id. The existence check is on the user column, which the row leaves null |
| Spaces.SpaceService.AddSpace | src/main/java/com/gzu/gqzpicturebackend/service/impl/SpaceServiceImpl.java:56-94 | the result and the new table are those of AddSpaceAsWritten |
| Spaces.AsWrittenSecondAddSucceeds | src/main/java/com/gzu/gqzpicturebackend/service/impl/SpaceServiceImpl.java:71-87 | as written, a user's second add is not refused |
| Spaces.AsWrittenSecondAddOverwrites | src/main/java/com/gzu/gqzpicturebackend/service/impl/SpaceServiceImpl.java:71-87 | as written, two adds by user 7 both return 7, and the table then holds one space, under id 7, with no owner |
| Spaces.AddSpace | src/main/java/com/gzu/gqzpicturebackend/service/impl/SpaceServiceImpl.java:79-92 | the corrected add sets the owner column: a user who already has a space is refused with PARAMS_ERROR; otherwise one row owned by the user is added |
| Spaces.AddSpaceKeepsOneSpacePerUser | src/main/java/com/gzu/gqzpicturebackend/service/impl/SpaceServiceImpl.java:79-88 | the corrected add preserves "at most one space per user" |
| Spaces.AddSpaceSecondAddRejected | src/main/java/com/gzu/gqzpicturebackend/service/impl/SpaceServiceImpl.java:81-85 | after a successful corrected add, the same user's next add that passes the checks is refused with "一个用户仅能有一个私有空间" |
| Spaces.GetSpaceVOPage | src/main/java/com/gzu/gqzpicturebackend/service/impl/SpaceServiceImpl.java:157-194 | the page keeps its counters; there is one view per record, in order, each with its owner attached |

## Left out

- Query building (`getQueryWrapper`, the sort and filter columns) is left out: the store's answer to a query is an input.
- The picture scale is a floating-point rounding, and it is a parameter.
- MD5, JSON serialisation and parsing, and the URL well-formedness test are parameters.
- Network and object-store I/O are parameters: the HEAD response, `getObject`/`putObject`, Jsoup's page fetch, and the object deletions.
- Concurrency is left out: the `synchronized` lock on the user id, the transaction template, and `@Async` on cleanup are all modelled as one sequential call.
- Cache expiry and eviction over time are left out. Caffeine's size bound is not modelled either, so the local cache is a map.
- Randomness and dates are inputs: the TTL jitter, the 16 random digits of a key, the date part of a key, and the current time.
- `FileController`, `UserController`, the controllers' plain getters and listings, and the upload endpoints are not modelled. They only forward to the services modelled here.
- `getPictureById`, `getPictureVOById` and `listPictureVOByPage` are not modelled. They are a lookup and a query that this model makes an input.
- Store acknowledgements that come back false are not modelled: "图片上传失败", "创建空间失败", "注册失败" and the like. The store here always succeeds.
- Pictures.UploadPictureByBatch: whether each candidate's upload succeeds is an input flag rather than a call to uploadPicture. The `m` attribute's JSON is taken as already parsed.
- hutool's `FileUtil.getName`, `mainName` and `getSuffix` are modelled from the library's documented behaviour. Compound suffixes such as tar.gz are not special-cased. `StrUtil.isBlank` treats as blank exactly the characters of `CharUtil.isBlankChar`: Java whitespace, Unicode space characters, and U+FEFF, U+202A, U+0000, U+3164, U+2800 and U+180E (`Common.IsBlankChar`).
- The enum classes for review states and space levels are not part of this model. Their values and quotas here are placeholders.
- `PictureEditRequest` and `SpaceAddRequest` are not part of this model. Their fields are taken from their use in the controller and service.
- The two subclass hooks of the template's file upload (`FilePictureUpload`) are inputs.
- Pictures.PictureService.UploadPicture: the record is stored as SaveOrUpdate says. The id MyBatis assigns on insert is an input.
- Common.ParseLong: only ASCII digits are accepted. `Long.parseLong` also accepts the other Unicode decimal digits, such as the Arabic-Indic ones, and the model refuses them.
- Pictures.CountWhere: the picture table's schema is not part of this model. Its columns are taken to be named as the entity's fields, as the other query conditions name them. Only string columns are modelled.
- Pictures.PictureService.ListPictureVOByPageWithCache: the exception on an expiry of 0 is modelled as coming from the Redis write, so nothing is cached and the loaded page is lost. How Spring wraps that exception is not modelled.
- PictureController.DeletePicture: the request's id is a Java `int`. Pictures whose ids exceed 2^31 - 1, such as MyBatis-Plus snowflake ids, cannot be deleted through this endpoint: the request never binds, so `deletePicture` never runs for them (`PictureController.WideIdNotDeletable`).
- PictureController.ListPictureByPage: the page is an input. Only sizes above 20 are refused, and a negative size reaches the store, where MyBatis-Plus returns the whole table unpaged. That unpaged answer is not modelled (`PictureController.NegativePageSizePasses`).
- Common.ToLower: only ASCII letters are lower-cased. The content-type check's `toLowerCase()` depends on the default locale and maps all of Unicode; with a Turkish locale "IMAGE/PNG" lowers to "ımage/png" and is refused, while the model accepts it. Locale-aware and non-ASCII case mapping are not modelled.
- Spaces.SpaceService.AddSpace: `Optional.ofNullable(newSpaceId).orElse(-1L)` always sees the user's id, so the -1 fallback never arises.

## Findings

| source | as written | input that shows it | evidently intended | confidence | as-written member | corrected member |
|---|---|---|---|---|---|---|
| src/main/java/com/gzu/gqzpicturebackend/service/impl/SpaceServiceImpl.java:72 | `space.setId(userId)` sets the space's id. The owner column stays null, so the check `eq(Space::getUserId, userId)` never finds the user's space | user 7 calls addSpace twice with an empty request: both calls return 7, and the second overwrites the first | `space.setUserId(userId)`, so that the second call fails with "一个用户仅能有一个私有空间" | not executed | Spaces.AsWrittenSecondAddOverwrites | Spaces.AddSpaceSecondAddRejected |
| src/main/java/com/gzu/gqzpicturebackend/manage/FileManager.java:155-159 | the upload key's suffix is taken from `FileUtil.mainName(fileUrl)`, which has already lost the extension | https://example.com/cat.png gives a key ending in "_{digits}.", with no extension | take the suffix from the URL's last path segment, as the template does | not executed | FileManager.UrlUploadPathLosesExtension | FileManager.UrlUploadPathKeepsExtension |
| src/main/java/com/gzu/gqzpicturebackend/service/impl/PictureServiceImpl.java:506-514 | the count filters on the column `pictureUrl`, and `deleteObject` is passed the picture's URL | any picture: the table has a `url` column and no `pictureUrl`, so the count throws and nothing is deleted; with the count fixed, the delete of host + "/" + key names an object that does not exist | count on `url`, and pass the object key, the URL without host + "/", to each delete | not executed; rests on the column names of the other query conditions | Pictures.AsWrittenCleanupDeletesNothing | Pictures.CleanupDeletesUploadedObjects |
| src/main/java/com/gzu/gqzpicturebackend/service/impl/PictureServiceImpl.java:489-490 | the Redis lifetime is `RandomUtil.randomInt(0, 300)` seconds | a listing that misses both caches when the draw is 0: Redis refuses an expiry of 0, the call throws after the query, and no page is returned | 300 seconds plus the draw, the 5 to 10 minutes of the comment | not executed; rests on Redis refusing a non-positive expiry | Pictures.ZeroExpiryMissFails | Pictures.IntendedTtlMissSucceeds |
