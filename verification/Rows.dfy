/** One row of o_users and the SQL statements of service/user.go that touch its protected columns. */
module Rows {
  import opened Prelude

  /** codes is None for NULL. */
  datatype Row = Row(password: string, secret: string, enabled: bool, lastStep: int, codes: Option<seq<string>>)
  {
    /** user.RecoveryCodes as gorm reads it. */
    function List(): seq<string> {
      match codes
      case None => []
      case Some(list) => list
    }
  }

  datatype Statement =
    | SetPending(secret: string)
    | Enable(secret: string, step: int, hashes: seq<string>)
    | ClearPending(secret: string)
    | Disable(secret: string)
    | ConsumeStep(step: int)
    | ReplaceCodes(prev: seq<string>, remaining: seq<string>)
    | ReplacePassword(current: string, replacement: string)
    | UpdatePassword(password: string)
    | Reset(password: string)

  /** The WHERE clause, beyond the primary key. */
  predicate Matches(row: Row, stmt: Statement) {
    match stmt
    case SetPending(_) => !row.enabled
    case Enable(secret, _, _) => !row.enabled && row.secret == secret
    case ClearPending(secret) => !row.enabled && row.secret == secret
    case Disable(secret) => row.enabled && row.secret == secret
    case ConsumeStep(step) => row.lastStep < step
    case ReplaceCodes(prev, _) => row.codes == Some(prev)
    case ReplacePassword(current, _) => row.password == current
    case UpdatePassword(_) => true
    case Reset(_) => true
  }

  /** The SET clause. */
  function Write(row: Row, stmt: Statement): Row {
    match stmt
    case SetPending(secret) => row.(secret := secret)
    case Enable(_, step, hashes) => row.(enabled := true, lastStep := step, codes := Some(hashes))
    case ClearPending(_) => row.(secret := "")
    case Disable(_) => row.(secret := "", enabled := false, lastStep := 0, codes := None)
    case ConsumeStep(step) => row.(lastStep := step)
    case ReplaceCodes(_, remaining) => row.(codes := Some(remaining))
    case ReplacePassword(_, replacement) => row.(password := replacement)
    case UpdatePassword(password) => row.(password := password)
    case Reset(password) => Row(password, "", false, 0, None)
  }

  /** A statement either fails, or finds no row, or changes this one. */
  predicate Lands(row: Row, stmt: Statement, fault: bool) {
    !fault && Matches(row, stmt)
  }

  function Exec(row: Row, stmt: Statement, fault: bool): Row {
    if Lands(row, stmt, fault) then Write(row, stmt) else row
  }

  function ExecAll(row: Row, stmts: seq<Statement>): Row
    decreases |stmts|
  {
    if stmts == [] then row else ExecAll(Exec(row, stmts[0], false), stmts[1..])
  }
}
