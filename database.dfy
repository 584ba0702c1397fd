/**
 * DBManager's command-line handling: getFileName finds the database file
 * name after the "-fileName" flag and records it in the field `db`. The
 * JDBC/SQLite operations of DBManager are not part of this model.
 */
module Database {

  datatype Option<T> = None | Some(value: T)

  const FileNameFlag: string := "-fileName"

  /** The position of the first occurrence of `flag` in args, if any. */
  function FirstIndexOf(args: seq<string>, flag: string): (r: Option<nat>)
    ensures r.Some? ==> r.value < |args| && args[r.value] == flag
    ensures r.Some? ==> forall j :: 0 <= j < r.value ==> args[j] != flag
    ensures r.None? ==> forall j :: 0 <= j < |args| ==> args[j] != flag
  {
    if args == [] then None
    else if args[0] == flag then Some(0)
    else match FirstIndexOf(args[1..], flag)
      case None => None
      case Some(i) => Some(i + 1)
  }

  /**
   * The name getFileName returns: the argument after the first "-fileName",
   * or "" when there is no such flag or it is the last argument (the index
   * error there is caught).
   */
  function FileNameArg(args: seq<string>): (r: string)
    ensures FileNameFlag !in args ==> r == ""
    ensures r != "" ==> r in args[1..]
  {
    match FirstIndexOf(args, FileNameFlag)
    case None => ""
    case Some(i) => if i + 1 < |args| then args[i + 1] else ""
  }

  /** The argument right after the FIRST "-fileName" is the name; later flags are ignored. */
  lemma FileNameFollowsFirstFlag(args: seq<string>, i: nat)
    requires i + 1 < |args| && args[i] == FileNameFlag
    requires forall j :: 0 <= j < i ==> args[j] != FileNameFlag
    ensures FileNameArg(args) == args[i + 1]
  {
  }

  /** Without a "-fileName" argument the name is empty. */
  lemma FileNameEmptyWithoutFlag(args: seq<string>)
    requires forall j :: 0 <= j < |args| ==> args[j] != FileNameFlag
    ensures FileNameArg(args) == ""
  {
  }

  /** When the only "-fileName" is the last argument the name is empty. */
  lemma FileNameEmptyWhenFlagLast(args: seq<string>)
    requires |args| >= 1 && args[|args| - 1] == FileNameFlag
    requires forall j :: 0 <= j < |args| - 1 ==> args[j] != FileNameFlag
    ensures FileNameArg(args) == ""
  {
  }

  /** The search loop of getFileName, with the caught index error as the empty name. */
  method ScanFileName(args: seq<string>) returns (fileName: string)
    ensures fileName == FileNameArg(args)
  {
    fileName := "";
    var i := 0;
    while i < |args|
      invariant 0 <= i <= |args|
      invariant forall j :: 0 <= j < i ==> args[j] != FileNameFlag
      invariant fileName == ""
    {
      if args[i] == FileNameFlag {
        if i + 1 < |args| {
          fileName := args[i + 1];
        }
        // otherwise args[i + 1] throws, and the handler leaves fileName empty
        break;
      }
      i := i + 1;
    }
  }

  /** What getFileName leaves in `db`: the name when there is one, else the old value. */
  function DbAfterGetFileName(db: Option<string>, args: seq<string>): (r: Option<string>)
    ensures db.Some? ==> r.Some?
    ensures r == db || r == Some(FileNameArg(args))
    ensures FileNameArg(args) != "" ==> r == Some(FileNameArg(args))
  {
    var fileName := FileNameArg(args);
    if fileName == "" then db else Some(fileName)
  }

  class DbManager {
    /** The database file name; None stands for Java's null before any assignment. */
    var db: Option<string>

    constructor ()
      ensures db == None
    {
      db := None;
    }

    method GetFileName(args: seq<string>) returns (fileName: string)
      modifies this
      ensures fileName == FileNameArg(args)
      ensures db == DbAfterGetFileName(old(db), args)
      ensures fileName != "" ==> db == Some(fileName)
      ensures fileName == "" ==> db == old(db)
    {
      fileName := ScanFileName(args);
      if fileName == "" {
        // the source reports "DATABASE SETUP FAILED" and keeps db
      } else {
        db := Some(fileName);
      }
    }
  }
}
