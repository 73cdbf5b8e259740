/** The picture-processing request the upload sends to the object store
    (CosManager.putPictureObject): always ask for the picture info, always a
    WebP compression rule, and a 256x256 thumbnail rule for files above a
    size threshold. Sending the request is not modelled. */
module Cos {
  import opened Common
  import FileNames

  datatype Rule = Rule(fileId: string, bucket: string, rule: string)

  datatype PicOperations = PicOperations(isPicInfo: int, rules: seq<Rule>)

  datatype PutObjectRequest = PutObjectRequest(bucket: string, key: string, picOperations: PicOperations)

  /** Files strictly longer than this many bytes get a thumbnail rule. */
  const ThumbnailThreshold: int := 2 * 1024
  const ThumbnailEdge: nat := 256

  const CompressRuleText: string := "imageMogr2/format/webp"

  /** The rule built by String.format("imageMogr2/thumbnail/%s*%s>", 256, 256). */
  function ThumbnailRuleText(): (r: string)
    ensures r == "imageMogr2/thumbnail/256*256>"
  {
    "imageMogr2/thumbnail/" + NatToString(ThumbnailEdge) + "*" + NatToString(ThumbnailEdge) + ">"
  }

  /** putPictureObject, up to the call into the store's client. */
  method PutPictureObject(bucket: string, key: string, fileLength: int) returns (req: PutObjectRequest)
    ensures req.bucket == bucket && req.key == key
    ensures req.picOperations.isPicInfo == 1
    ensures var rules := req.picOperations.rules;
      && 1 <= |rules| <= 2
      && rules[0] == Rule(FileNames.MainName(key) + ".webp", bucket, "imageMogr2/format/webp")
      && (|rules| == 2 <==> fileLength > 2048)
      && (|rules| == 2 ==>
            rules[1] == Rule(FileNames.MainName(key) + "_thumbnail." + FileNames.Suffix(key), bucket,
                             "imageMogr2/thumbnail/256*256>"))
  {
    var rules: seq<Rule> := [];
    var webpKey := FileNames.MainName(key) + ".webp";
    var compressRule := Rule(webpKey, bucket, CompressRuleText);
    rules := rules + [compressRule];
    if fileLength > ThumbnailThreshold {
      var thumbnailKey := FileNames.MainName(key) + "_thumbnail." + FileNames.Suffix(key);
      var thumbnailRule := Rule(thumbnailKey, bucket, ThumbnailRuleText());
      rules := rules + [thumbnailRule];
    }
    var picOperations := PicOperations(1, rules);
    req := PutObjectRequest(bucket, key, picOperations);
  }

  /** The derived objects are named by bare file names: the directory part
      of the key does not occur in their file ids. */
  lemma DerivedFileIdsHaveNoDirectory(key: string)
    ensures FileNames.NoSeparator(FileNames.MainName(key) + ".webp")
    ensures FileNames.NoSeparator(FileNames.MainName(key) + "_thumbnail." + FileNames.Suffix(key))
  {
    var main := FileNames.MainName(key);
    assert FileNames.NoSeparator(".webp");
    FileNames.NoSeparatorConcat(main, ".webp");
    assert FileNames.NoSeparator("_thumbnail.");
    FileNames.NoSeparatorConcat(main, "_thumbnail.");
    FileNames.NoSeparatorConcat(main + "_thumbnail.", FileNames.Suffix(key));
  }
}
