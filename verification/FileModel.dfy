/** The File record shared by the walk, the table and the upload handlers. */
module FileModel {
  import opened Text

  datatype FileType = Dir | Regular
  datatype UploadStatus = Completed | Failed | Pending

  /** Columns in table order. Times are points of a clock; no time means NULL. */
  datatype File = File(
    ownerId: string, name: string, fileType: FileType, fileId: string, extension: string,
    parentId: string, path: string, size: int, modifiedOn: int, deletedOn: Option<int>,
    uploadStatus: UploadStatus, uniqueHash: string)

  /** SHA-256 in hexadecimal, left uninterpreted. */
  type Sha = string -> string

  function TrimDot(s: string): string {
    if |s| > 0 && s[0] == '.' then s[1..] else s
  }

  /** The text whose hash keeps files unique: the parts run together. */
  function HashInput(owner: string, name: string, extension: string, parent: string): string {
    owner + name + extension + parent
  }

  function NewFile(sha: Sha, id: string, now: int, owner: string, name: string, fileType: FileType,
                   extension: string, size: int, parent: string, status: UploadStatus): File
  {
    var ext := TrimDot(extension);
    File(owner, name, fileType, id, ext, parent, if fileType == Dir then "" else owner + "/" + id, size, now, None,
         status, sha(HashInput(owner, name, ext, parent)))
  }

  predicate HasId(files: seq<File>, id: string) {
    exists i :: 0 <= i < |files| && files[i].fileId == id
  }

  ghost predicate DistinctIds(files: seq<File>) {
    forall i, j :: 0 <= i < |files| && 0 <= j < |files| && files[i].fileId == files[j].fileId ==> i == j
  }
}
