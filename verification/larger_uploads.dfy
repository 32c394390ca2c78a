/** The upload-limit override (src/LargerFileUploads/index.tsx): the client's two size checks
    are replaced, so single files up to 500 MiB pass and the total size is never refused. */
module LargerUploads {
  /** 500 MiB, in bytes. */
  const MaxSize: nat := 524288000

  /** The plugin's switch; fixed to true, so the client's own checks never run. */
  const LoggedIn := true

  datatype File = File(name: string, size: nat)

  /** `Array.from(files).some(file => file.size > MAX_SIZE)`. */
  function SomeFileTooLarge(files: seq<File>): (r: bool)
    ensures r <==> exists i :: 0 <= i < |files| && files[i].size > MaxSize
  {
    if |files| == 0 then false
    else
      var rest := SomeFileTooLarge(files[1..]);
      assert (exists i :: 1 <= i < |files| && files[i].size > MaxSize) <==>
             (exists j :: 0 <= j < |files[1..]| && files[1..][j].size > MaxSize) by {
        forall i | 1 <= i < |files| && files[i].size > MaxSize
          ensures exists j :: 0 <= j < |files[1..]| && files[1..][j].size > MaxSize
        {
          assert files[1..][i - 1] == files[i];
        }
      }
      files[0].size > MaxSize || rest
  }

  /** The replacement for `anyFileTooLarge`; `original` is the client's check, consulted only
      when not logged in. */
  function AnyFileTooLarge(original: seq<File> -> bool, files: seq<File>): (r: bool)
    ensures r <==> exists i :: 0 <= i < |files| && files[i].size > MaxSize
  {
    if LoggedIn then SomeFileTooLarge(files) else original(files)
  }

  /** The replacement for `uploadSumTooLarge`: never too large. */
  function UploadSumTooLarge(original: seq<File> -> bool, files: seq<File>): (r: bool)
    ensures !r
  {
    if LoggedIn then false else original(files)
  }

  lemma MaxSizeIs500MiB()
    ensures MaxSize == 500 * 1024 * 1024
  {
  }

  /** The limit is inclusive: a file of exactly 500 MiB passes, one byte more does not. */
  lemma LimitInclusive(original: seq<File> -> bool, name: string)
    ensures !AnyFileTooLarge(original, [File(name, MaxSize)])
    ensures AnyFileTooLarge(original, [File(name, MaxSize + 1)])
  {
  }

  /** The client's own checks are never consulted. */
  lemma OriginalsIgnored(a: seq<File> -> bool, b: seq<File> -> bool, files: seq<File>)
    ensures AnyFileTooLarge(a, files) == AnyFileTooLarge(b, files)
    ensures UploadSumTooLarge(a, files) == UploadSumTooLarge(b, files)
  {
  }

  /** The verdict depends only on the largest file: adding files that fit changes nothing. */
  lemma FittingFilesIrrelevant(original: seq<File> -> bool, files: seq<File>, extra: seq<File>)
    requires forall i :: 0 <= i < |extra| ==> extra[i].size <= MaxSize
    ensures AnyFileTooLarge(original, files + extra) == AnyFileTooLarge(original, files)
  {
    var all := files + extra;
    forall i | 0 <= i < |all| ensures all[i].size > MaxSize <==> i < |files| && files[i].size > MaxSize {
      if i < |files| {
        assert all[i] == files[i];
      } else {
        assert all[i] == extra[i - |files|];
      }
    }
    if AnyFileTooLarge(original, files) {
      var i :| 0 <= i < |files| && files[i].size > MaxSize;
      assert all[i].size > MaxSize;
    }
  }
}
