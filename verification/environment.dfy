/** The environment handles a backend owns, the setup sequence its
    constructor runs, and the idempotent teardown. Both backend variants
    run the same sequence. */
module Environment {
  import opened Codes

  /** `MDB_env *`: null, or an environment handle. */
  datatype EnvHandle = NullEnv | LiveEnv

  /** The handles a backend holds: the environment, the table handle
      (`MDB_dbi`, 0 when no table is open), and how many transactions it
      opened on the environment and never released. */
  datatype Handles = Handles(env: EnvHandle, dbi: nat, dangling: nat)

  /** Whether each engine call of the constructor succeeded:
      `mdb_env_create`, `mdb_env_open`, `mdb_txn_begin`, `mdb_dbi_open`, `mdb_txn_commit`. */
  datatype SetupReplies = SetupReplies(create: bool, open: bool, begin: bool, dbiOpen: bool, commit: bool)

  predicate AllSucceed(s: SetupReplies) {
    s.create && s.open && s.begin && s.dbiOpen && s.commit
  }

  /** The handle `mdb_dbi_open` gives for the unnamed main table. */
  const MAIN_DBI: nat := 1

  /** The destructor's handle teardown: close the table, then the
      environment, and null both. Closing null handles does nothing. */
  function Close(h: Handles): (h': Handles)
    ensures h'.env == NullEnv && h'.dbi == 0
    ensures h'.dangling == h.dangling
  {
    h.(dbi := 0).(env := NullEnv)
  }

  /** Running the teardown twice is running it once. */
  lemma CloseIdempotent(h: Handles)
    ensures Close(Close(h)) == Close(h)
  {
  }

  /** The constructor: every failed step runs the destructor, so the
      backend ends with a table handle exactly when every step succeeded.
      When `mdb_dbi_open` fails, the setup transaction is never released. */
  function Setup(s: SetupReplies): (h: Handles)
    ensures h.dbi != 0 <==> AllSucceed(s)
    ensures h.env == LiveEnv <==> AllSucceed(s)
    ensures AllSucceed(s) ==> h.dbi == MAIN_DBI
    ensures h.dangling == (if s.create && s.open && s.begin && !s.dbiOpen then 1 else 0)
  {
    var initial := Handles(NullEnv, 0, 0);
    if !s.create then Close(initial)
    else
      var created := initial.(env := LiveEnv);
      if !s.open || !s.begin then Close(created)
      else if !s.dbiOpen then Close(created.(dangling := 1))
      else
        var withTable := created.(dbi := MAIN_DBI);
        if !s.commit then Close(withTable) else withTable
  }

  /** The registration check: a backend whose constructor left `dbi == 0`
      is refused, and so is one the dispatcher would not add. */
  function Admit(h: Handles, added: bool): (rc: int)
    ensures rc == GIT_OK || rc == GIT_ERROR
    ensures rc == GIT_OK <==> h.dbi != 0 && added
  {
    if h.dbi == 0 then GIT_ERROR
    else if !added then GIT_ERROR
    else GIT_OK
  }
}
