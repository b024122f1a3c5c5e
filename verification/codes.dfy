/** Result codes shared by both backends: libgit2's return codes, the LMDB
    status codes the backends inspect, and libgit2's object type numbers. */
module Codes {

  /** libgit2 return codes (git2/errors.h). */
  const GIT_OK: int := 0
  const GIT_ERROR: int := -1
  const GIT_ENOTFOUND: int := -3
  const GIT_EUSER: int := -7

  /** LMDB status codes. */
  const MDB_SUCCESS: int := 0
  const MDB_NOTFOUND: int := -30798
  /** What `mdb_txn_commit` answers when it is handed a null transaction. */
  const EINVAL: int := 22

  /** libgit2's `git_otype` values (git2/types.h). */
  const GIT_OBJ_ANY: int := -2
  const GIT_OBJ_BAD: int := -1
  const GIT_OBJ_COMMIT: int := 1
  const GIT_OBJ_TREE: int := 2
  const GIT_OBJ_BLOB: int := 3
  const GIT_OBJ_TAG: int := 4
  const GIT_OBJ_OFS_DELTA: int := 6
  const GIT_OBJ_REF_DELTA: int := 7
}

/** The conventional Some/None wrapper for absent out-parameters. */
module Options {
  datatype Option<+T> = None | Some(value: T)
}
