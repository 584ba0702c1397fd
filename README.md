# Simple Banking System — a verified Dafny model of its core

The Simple Banking System is a console program that simulates one bank:
it creates card accounts, logs in with card number and PIN, shows the
balance, adds income, transfers money and closes accounts. This project
models its sequential core, without the console, the random number
generator or the SQLite database:

- the **identifier engine** of `BankingSystem` (module `Identifiers`):
  `findChecksum`, `generateCardNumber` ("400000" + nine random digits + a
  check digit) and `generatePIN`, with the random digits as parameters;
- the **in-memory ledger** of `BankingSystem` (module `Ledger`): the map
  `cardNumbers` from card number to PIN, the account set `accounts`, and
  `createAccount`, `logIn`, `checkCredentials`, `accountExists`,
  `addIncome`, `doTransfer` and `closeAccount`, with console input as
  parameters;
- `UserAccount` (module `Accounts`): a class whose three fields are updated
  in place and whose `equals`/`hashCode` look only at (card number, PIN);
- `DBManager.getFileName` (module `Database`), the parser of the
  `-fileName` command-line flag;
- the older copy of all of this in `Main.java` (module `LegacyMain`).

Module `Luhn` is an independent reference: the check digit of ISO/IEC
7812-1, Annex B, where digits are weighted from the right.

## How the model reads the code

- `findChecksum` adds up `Integer.valueOf(char)`, which is the character
  CODE ('0' is 48), not the digit value. So its sum is 48 per character
  plus the Luhn sum, and its result is the Luhn digit exactly when the
  length is a multiple of 5 (`Identifiers.ChecksumIsLuhnIff`, both
  directions). It also counts positions from the left, while Annex B counts
  from the right. The two counts agree only for odd lengths. Together,
  `findChecksum` gives the Annex B check digit for 5, 15, 25, … digits,
  which includes the 15 digits it is used on (`ChecksumIsIsoCheckDigit`).
- `findChecksum` parses only the characters at odd 1-based positions, so
  only those must be digits (`OddPositionsAreDigits`). The others are
  copied and summed by their character codes.
- `doTransfer` catches the exceptions that an empty input or a non-digit at
  an odd position cause. The model returns `Aborted` and changes nothing.
  It never credits the target; the typed amount's sign is not checked.
- The `accounts` HashSet is keyed by `UserAccount.equals`. It is modelled
  as a map from `Credentials` (card number, PIN) to the balance of the
  element stored under them. Those elements never leave `createAccount`.
  `logIn` builds a fresh `UserAccount(cardNumber, pin, 0)` for the session.
  Every later balance change hits that object, so the stored balances stay
  0, and `Ledger.LedgerInvariant` says so.
- `closeAccount` removes the account from `accounts` only. Its card number
  stays in `cardNumbers`, so it still passes `accountExists` and still
  receives transfers (`Ledger.AccountLifecycle` plays this through).
- `Main.java:16-296` is the same code as `BankingSystem.java` and
  `UserAccount.java`, apart from the `public` modifiers and doc comments.
  It is modelled by the same members. Only its `DBManager` differs, and
  that part has its own members in `LegacyMain`.

The model follows what the code does, also where its comments or the
usual reading of a banking program suggest otherwise: card digits are
drawn from 0..8, not 0..9; PIN digits from 1..8, although
`BankingSystem.java:146` says 0000 to 9999; income of any sign is
added; closing an account keeps its card number in `cardNumbers`; an
unknown target and a bad check digit give the same outcome (`WrongCard`);
and malformed transfer input is an exception that is caught, not a
reported format error.

## Model

| member | source | states |
|---|---|---|
| `Luhn.Double` | src/banking/BankingSystem.java:107-112 | doubling then subtracting 9 above 9 gives a digit below 10, equal to the sum of the digits of 2d |
| `Luhn.CheckDigit` | src/banking/BankingSystem.java:124-125 | the Annex B check digit is below 10 and makes the right-weighted Luhn sum a multiple of 10 |
| `Luhn.CheckDigitCompletes` | src/banking/BankingSystem.java:124-125 | appending digit d to a payload gives an Annex B valid number if and only if d is the payload's check digit |
| `Identifiers.Processed` | src/banking/BankingSystem.java:105-117 | the intermediate string has the input's length |
| `Identifiers.ProcessedAt` | src/banking/BankingSystem.java:105-117 | each character of the intermediate string is the doubled-and-reduced digit at odd 1-based positions and the unchanged character at even ones |
| `Identifiers.ChecksumOf` | src/banking/BankingSystem.java:124-125 | the result lies in 0..9 and tops the sum up to a multiple of 10 |
| `Identifiers.Checksum` | src/banking/BankingSystem.java:101-125 | the value of findChecksum is always in 0..9 |
| `Identifiers.FindChecksum` | src/banking/BankingSystem.java:101-126 | the two loops compute the code sum of the processed string and return its completing digit, in 0..9 |
| `Identifiers.CodeSumOfProcessed` | src/banking/BankingSystem.java:120-123 | on digits, the summed character codes equal 48 per character plus the left-counted Luhn sum |
| `Identifiers.PositionSumFromRight` | src/banking/BankingSystem.java:104-117 | counting odd positions from the left equals Annex B's weighting from the right when the last digit sits at an odd position |
| `Identifiers.ShiftedChecksum` | src/banking/BankingSystem.java:122-125 | adding 48 per character leaves the check digit unchanged exactly when the count is a multiple of 5 |
| `Identifiers.ChecksumIsLuhnIff` | src/banking/BankingSystem.java:121-125 | on digits, findChecksum equals the Luhn check digit of its described procedure if and only if the length is a multiple of 5 |
| `Identifiers.ChecksumIsIsoCheckDigit` | src/banking/BankingSystem.java:101-125 | on 5, 15, 25, … digits findChecksum is the ISO/IEC 7812-1 Annex B check digit |
| `Identifiers.NumericValue` | src/banking/BankingSystem.java:265 | Character.getNumericValue gives a digit its value and any ASCII character a value in -1..35 |
| `Identifiers.CheckCard` | src/banking/BankingSystem.java:264-265 | the check throws exactly on an empty input or a non-digit at an odd position of all but the last character; it passes only when the last character is a digit equal to findChecksum of the rest |
| `Identifiers.CheckCardIsIsoValidation` | src/banking/BankingSystem.java:264-265 | on all-digit strings of 16 (mod 10: 6) digits the transfer's card check never throws and passes if and only if the number is Annex B valid |
| `Identifiers.GenerateCardNumber` | src/banking/BankingSystem.java:135-138 | the card has 16 digits, starts with 400000, carries the nine given digits in order, ends with findChecksum of its first 15, and is Annex B valid |
| `Identifiers.GeneratedCardPassesCheck` | src/banking/BankingSystem.java:264 | every generated card number passes doTransfer's check digit test and is Annex B valid |
| `Identifiers.GeneratePIN` | src/banking/BankingSystem.java:150-158 | the PIN is 1000·d1+100·d2+10·d3+d4, lies in 1111..8888, and its four decimal digits are the given ones, none 0 or 9 |
| `Accounts.Int32` | src/banking/UserAccount.java:63 | Java's int conversion lies in the signed 32-bit range and differs from its argument by a multiple of 2^32 |
| `Accounts.StringHash` | src/banking/UserAccount.java:63 | the String.hashCode that Objects.hash applies to the card number is a signed 32-bit value |
| `Accounts.CredentialsHash` | src/banking/UserAccount.java:62-64 | Objects.hash(cardNumber, PIN) is a 32-bit value computed from the credentials alone |
| `Accounts.UserAccount.constructor` | src/banking/UserAccount.java:22-26 | the three arguments are stored unchanged |
| `Accounts.UserAccount.SetCardNumber` | src/banking/UserAccount.java:32-34 | only the card number changes |
| `Accounts.UserAccount.SetPin` | src/banking/UserAccount.java:40-42 | only the PIN changes |
| `Accounts.UserAccount.SetBalance` | src/banking/UserAccount.java:48-50 | only the balance changes |
| `Accounts.UserAccount.Equals` | src/banking/UserAccount.java:52-59 | equals holds for the same reference, fails for null and for objects of other classes, and for another UserAccount holds exactly when card number and PIN are equal |
| `Accounts.UserAccount.HashCode` | src/banking/UserAccount.java:61-64 | hashCode is a signed 32-bit value |
| `Accounts.EqualsIsSameCredentials` | src/banking/UserAccount.java:56-58 | two accounts are equal if and only if card number and PIN are equal; balance plays no part |
| `Accounts.EqualsIsEquivalence` | src/banking/UserAccount.java:53-55 | equals holds for the same reference, fails for null and other classes, and is symmetric and transitive |
| `Accounts.EqualAccountsHashEqually` | src/banking/UserAccount.java:61-64 | equal accounts have equal hash codes |
| `Ledger.TransferOutcomeOf` | src/banking/BankingSystem.java:264-284 | the transfer aborts exactly when the card check throws; it succeeds only for a known card that passes the check with the balance covering the amount, reports not enough money only for a known passing card with a smaller balance, and never gets past WrongCard for an unknown card |
| `Ledger.TransferAcceptsExactlyKnownCards` | src/banking/BankingSystem.java:264-276 | when all known card numbers are generated ones, a transfer passes the card test exactly for known card numbers, and then succeeds exactly when the balance covers the amount |
| `Ledger.AlteredCheckDigitRejected` | src/banking/BankingSystem.java:264-265 | changing the check digit of a generated card number makes the card test fail |
| `Ledger.NegativeTransferRaisesBalance` | src/banking/BankingSystem.java:267-270 | a negative amount to a known card succeeds whenever the balance is non-negative, and in general exactly when the balance is at least the amount; `DoTransfer` then sets the balance to balance − amount, which its contract states is higher than before |
| `Ledger.BankingSystem.constructor` | src/banking/BankingSystem.java:22-23 | both collections start empty and the ledger invariant holds |
| `Ledger.CreateKeepsInvariant` | src/banking/BankingSystem.java:84-91 | adding a generated card with its PIN and the credentials with balance 0 keeps the ledger invariant, and adding credentials already present leaves the account set as it was |
| `Ledger.BankingSystem.CreateAccount` | src/banking/BankingSystem.java:84-91 | adds cardNumber→PIN to cardNumbers and the credentials with balance 0 to accounts, nothing else; the card and PIN are well formed; afterwards the card exists and the credentials authenticate; the invariant is kept |
| `Ledger.BankingSystem.AccountExists` | src/banking/BankingSystem.java:293-295 | under the ledger invariant an existing number is a generated card number, and the card number of every account in the set exists |
| `Ledger.BankingSystem.CheckCredentials` | src/banking/BankingSystem.java:182-190 | login succeeds if and only if the account set holds the (card number, PIN) pair |
| `Ledger.BankingSystem.LogIn` | src/banking/BankingSystem.java:165-175 | the session is a fresh account with the typed credentials and balance 0; it is logged in if and only if the credentials are in the set |
| `Ledger.BankingSystem.AddIncome` | src/banking/BankingSystem.java:240-245 | the session balance becomes old + income with no sign check; card number, PIN, cardNumbers and accounts are unchanged |
| `Ledger.BankingSystem.DoTransfer` | src/banking/BankingSystem.java:260-285 | the outcome is Aborted, WrongCard, NotEnoughMoney or Success as decided by the card test, the lookup and the balance; only on Success does the session balance drop by the amount (and rise when the amount is negative); no ledger entry and no target is credited |
| `Ledger.BankingSystem.CloseAccount` | src/banking/BankingSystem.java:302-305 | removes the credentials from accounts only; cardNumbers is unchanged, so the card still exists, while the credentials no longer authenticate; the invariant is kept |
| `Database.FirstIndexOf` | src/banking/DBManager.java:40-45 | returns the first position holding the flag, or none when no argument is the flag |
| `Database.FileNameFollowsFirstFlag` | src/banking/DBManager.java:40-44 | the name is the argument right after the first "-fileName"; later flags are ignored |
| `Database.FileNameEmptyWithoutFlag` | src/banking/DBManager.java:38-45 | without a "-fileName" argument the name is "" |
| `Database.FileNameEmptyWhenFlagLast` | src/banking/DBManager.java:40-48 | when the only "-fileName" is last, the index error is caught and the name is "" |
| `Database.FileNameArg` | src/banking/DBManager.java:38-48 | without a "-fileName" argument the name is "", and a non-empty name is one of the arguments after the first |
| `Database.ScanFileName` | src/banking/DBManager.java:38-48 | the search loop with its break and caught index error yields exactly the name after the first flag, or "" |
| `Database.DbAfterGetFileName` | src/banking/DBManager.java:49-53 | once db holds a name it never returns to null; db either keeps its value or takes the name found, and takes it whenever the name is non-empty |
| `Database.DbManager.constructor` | src/banking/DBManager.java:17 | db starts unset (Java's null) |
| `Database.DbManager.GetFileName` | src/banking/DBManager.java:37-55 | returns the flag's value; db becomes that value when it is non-empty and keeps its old value otherwise |
| `LegacyMain.LegacyDbAfterGetFileName` | src/banking/Main.java:319 | the older getFileName always leaves a value in db |
| `LegacyMain.GetFileNameVersionsAgreeIff` | src/banking/Main.java:307-320 | the two getFileName versions leave the same db if and only if a name is found or db already held "" |
| `LegacyMain.LegacySetupMisreadsShiftedFlag` | src/banking/Main.java:301-303 | with "-fileName" as the second argument, setup's args[1] is the flag itself while the flag search gives the third argument or "" |
| `LegacyMain.LegacySetupAgreesOnLeadingFlag` | src/banking/Main.java:302 | for "-fileName name …" the older setup and the flag search pick the same name |
| `LegacyMain.LegacyDbManager.constructor` | src/banking/Main.java:299 | db starts unset (Java's null) |
| `LegacyMain.LegacyDbManager.Setup` | src/banking/Main.java:301-304 | db becomes args[1]; with fewer than two arguments the access throws and nothing is set |
| `LegacyMain.LegacyDbManager.GetFileName` | src/banking/Main.java:307-321 | returns the flag's value and sets db to it unconditionally, "" included |

## Left out

- Console I/O: `mainMenu`, `userMenu`, `readUsersChoice`, `logOut`, `exit`, every print, and the Scanner parsing in `logIn`, `addIncome` and `doTransfer`. Typed values become parameters. The menus' mutual recursion is not modelled; `Ledger.AccountLifecycle` strings the operations together instead.
- The SQLite mirror: `DBManager.createNewTable`, `connect`, `selectIDByCard`, `insert`, `update`, `delete`, and the calls to them in `createAccount`, `addIncome`, `closeAccount` and both `setup` methods. They are I/O against an external store.
- `BankingSystem`'s constructor storing `args` and calling the static `dbManager.setup`: process-wide database setup, I/O.
- `java.util.Random`: the random digits are parameters with the ranges the calls guarantee (0..8 for the card, 1..8 for the PIN). `Arrays.toString` and the regex in `generateCardNumber` become plain concatenation of the digit characters.
- The getters of `UserAccount`: the model reads the fields directly.
- `null` card numbers and arguments: Dafny strings are never null, so the null cases of `Objects.equals` are not modelled.
- Non-ASCII digits: `Integer.valueOf` also parses decimal digits of other scripts, and `Character.getNumericValue` also gives values to non-ASCII characters. The model accepts ASCII digits only and gives every non-ASCII character -1. Known card numbers are ASCII digits, so no transfer outcome other than `Aborted` versus `WrongCard` depends on this.
- Characters outside the Basic Multilingual Plane: Java works on UTF-16 code units and Dafny on code points, so code sums and `String.hashCode` agree only for strings without such characters.
- Ledger.BankingSystem.AddIncome: does not model 32-bit wrap-around of the balance, because the model uses unbounded integers.
- Ledger.BankingSystem.DoTransfer: does not model 32-bit wrap-around of balance minus amount, because the model uses unbounded integers.
- Identifiers.FindChecksum: does not model 32-bit overflow of `int sum`. Each even position may hold any character, whose code is up to 0xFFFF, so about 65,000 characters of typed transfer input are enough to overflow it (an all-digit input needs about 38 million). After overflow Java's `sum % 10` is negative and the method returns 11..19.
- Identifiers.Checksum: its 0..9 range holds only below that overflow. The source's findChecksum returns 11..19 for some inputs of tens of thousands of characters, and `CheckCard` may then answer `Match` or `Mismatch` differently from Java. The transfer outcome is `WrongCard` either way, because every known card number has 16 characters.
- The try-with-resources in `logIn` and `doTransfer` closes `System.in`, so later console reads fail. This is console I/O.
- A `UserAccount` stored in the HashSet whose card number or PIN is changed in place would break hashing. The source never changes a stored element, so the set is modelled by value.
