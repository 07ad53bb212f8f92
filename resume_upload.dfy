/**
 * Where an uploaded resume is stored (core/models.py, upload_to_path):
 * a per-user directory under api/pdf/.
 */
module ResumeUpload {
  const Root: string := "api/pdf/"

  function UploadPath(username: string, filename: string): (path: string)
    ensures |path| == |Root| + |username| + 1 + |filename|
    ensures path[..|Root|] == Root
    ensures path[|Root|..|Root| + |username|] == username
    ensures path[|Root| + |username|] == '/'
    ensures path[|Root| + |username| + 1..] == filename
  {
    Root + username + "/" + filename
  }

  /** Usernames cannot contain a slash, so a storage path names exactly one
   * user and one file name: two users never share an upload directory. */
  lemma UploadPathInjective(u1: string, f1: string, u2: string, f2: string)
    requires '/' !in u1 && '/' !in u2
    requires UploadPath(u1, f1) == UploadPath(u2, f2)
    ensures u1 == u2 && f1 == f2
  {
  }
}
