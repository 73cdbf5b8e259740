/** The local temporary directory the uploads stage files in, and the error
    log a failed delete writes to. Which name the operating system picks for
    a new temp file, and whether a delete succeeds, are inputs. */
module TempFiles {
  import opened Common

  const DeleteErrorMessage: string := "file delete error, filepath = "

  class TempDir {
    var files: set<string>
    var errorLog: seq<string>

    constructor ()
      ensures files == {} && errorLog == []
    {
      files := {};
      errorLog := [];
    }

    /** File.createTempFile: name is the file the system creates, or None
        when the call throws (then nothing is created). */
    method CreateTempFile(name: Option<string>) returns (file: Option<string>)
      modifies this`files
      ensures file == name
      ensures name.Some? ==> files == old(files) + {name.value}
      ensures name.None? ==> files == old(files)
    {
      file := name;
      if name.Some? {
        files := files + {name.value};
      }
    }

    /** deleteTempFile: nothing for a null file; otherwise the file is
        deleted, or, when the delete fails, left in place and an error is
        logged. It never throws. */
    method DeleteTempFile(file: Option<string>, deleted: bool)
      modifies this
      ensures file.None? ==> files == old(files) && errorLog == old(errorLog)
      ensures file.Some? && deleted ==> files == old(files) - {file.value} && errorLog == old(errorLog)
      ensures file.Some? && !deleted ==>
        files == old(files) && errorLog == old(errorLog) + [DeleteErrorMessage + file.value]
    {
      if file.None? {
        return;
      }
      if deleted {
        files := files - {file.value};
      } else {
        errorLog := errorLog + [DeleteErrorMessage + file.value];
      }
    }
  }
}
