/**
 * Main.java carries an older copy of BankingSystem, UserAccount and
 * DBManager. Its BankingSystem and UserAccount are the same code as the
 * separate files (modules Identifiers, Accounts and Ledger); its DBManager
 * differs in setup, which takes args[1] without looking for the flag, and in
 * getFileName, which assigns `db` even when the name is empty.
 */
module LegacyMain {
  import opened Database

  /** What the older getFileName leaves in `db`: always the name found, possibly "". */
  function LegacyDbAfterGetFileName(db: Option<string>, args: seq<string>): (r: Option<string>)
    ensures r.Some?
  {
    Some(FileNameArg(args))
  }

  /**
   * The two getFileName versions leave the same `db` exactly when a name is
   * found, or when `db` already held the empty name.
   */
  lemma GetFileNameVersionsAgreeIff(db: Option<string>, args: seq<string>)
    ensures DbAfterGetFileName(db, args) == LegacyDbAfterGetFileName(db, args)
        <==> FileNameArg(args) != "" || db == Some("")
  {
  }

  /**
   * The older setup names the database after args[1] whatever it is: when
   * "-fileName" is the second argument (and not the first), setup takes the
   * flag itself as the name while the flag search finds the third argument.
   */
  lemma LegacySetupMisreadsShiftedFlag(args: seq<string>)
    requires |args| >= 2 && args[0] != FileNameFlag && args[1] == FileNameFlag
    ensures FileNameArg(args) == if |args| > 2 then args[2] else ""
  {
    ShiftedFlagIndex(args);
  }

  lemma ShiftedFlagIndex(args: seq<string>)
    requires |args| >= 2 && args[0] != FileNameFlag && args[1] == FileNameFlag
    ensures FirstIndexOf(args, FileNameFlag) == Some(1)
  {
  }

  /** For the usual invocation "-fileName name ..." both setups pick the same name. */
  lemma LegacySetupAgreesOnLeadingFlag(args: seq<string>)
    requires |args| >= 2 && args[0] == FileNameFlag
    ensures FileNameArg(args) == args[1]
  {
  }

  class LegacyDbManager {
    var db: Option<string>

    constructor ()
      ensures db == None
    {
      db := None;
    }

    /**
     * setup: db := args[1]. With fewer than two arguments the array access
     * throws out of the BankingSystem constructor (ok is false, nothing is set).
     */
    method Setup(args: seq<string>) returns (ok: bool)
      modifies this
      ensures ok <==> |args| >= 2
      ensures db == if ok then Some(args[1]) else old(db)
    {
      if |args| < 2 {
        return false;
      }
      db := Some(args[1]);
      ok := true;
    }

    method GetFileName(args: seq<string>) returns (fileName: string)
      modifies this
      ensures fileName == FileNameArg(args)
      ensures db == LegacyDbAfterGetFileName(old(db), args)
      ensures db == Some(fileName)
    {
      fileName := ScanFileName(args);
      db := Some(fileName);
    }
  }
}
