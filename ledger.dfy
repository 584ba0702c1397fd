/**
 * The in-memory ledger of BankingSystem: the map from card number to PIN,
 * the set of accounts, and the operations the menus call on them. Console
 * input becomes parameters; the database mirror is not part of this model.
 *
 * The source keeps the accounts in a HashSet<UserAccount>, so membership is
 * decided by UserAccount.equals, i.e. by (card number, PIN). Here that set is
 * a map from those credentials to the balance of the element stored under
 * them. The stored elements are created by createAccount and never handed
 * out: a session works on the fresh UserAccount that logIn builds, so every
 * stored balance stays 0.
 */
module Ledger {
  import opened Luhn
  import opened Identifiers
  import opened Accounts

  /** What the ledger's two collections always satisfy. */
  predicate LedgerInvariant(cardNumbers: map<string, int>, accounts: map<Credentials, int>) {
    && (forall card :: card in cardNumbers ==> IsGeneratedCard(card) && IsGeneratedPin(cardNumbers[card]))
    && (forall key :: key in accounts ==> key.cardNumber in cardNumbers && IsGeneratedPin(key.pin))
    && (forall key :: key in accounts ==> accounts[key] == 0)
  }

  /** createAccount keeps the invariant, and re-adding credentials already present changes nothing. */
  lemma CreateKeepsInvariant(cardNumbers: map<string, int>, accounts: map<Credentials, int>, card: string, pin: int)
    requires LedgerInvariant(cardNumbers, accounts)
    requires IsGeneratedCard(card) && IsGeneratedPin(pin)
    ensures LedgerInvariant(cardNumbers[card := pin], accounts[Credentials(card, pin) := 0])
    ensures Credentials(card, pin) in accounts ==> accounts[Credentials(card, pin) := 0] == accounts
  {
  }

  /** The four ways doTransfer ends; Aborted is an exception caught inside it. */
  datatype TransferOutcome = Aborted | WrongCard | NotEnoughMoney | Success

  /** doTransfer's decision for target `input`, a session balance and the amount asked for. */
  function TransferOutcomeOf(cardNumbers: map<string, int>, input: string, balance: int, money: int): (r: TransferOutcome)
    ensures r == Aborted <==> CheckCard(input) == Malformed
    ensures r == Success ==> CheckCard(input) == Match && input in cardNumbers && balance >= money
    ensures r == NotEnoughMoney ==> CheckCard(input) == Match && input in cardNumbers && balance < money
    ensures input !in cardNumbers ==> r == Aborted || r == WrongCard
  {
    match CheckCard(input)
    case Malformed => Aborted
    case Mismatch => WrongCard
    case Match =>
      if input !in cardNumbers then WrongCard
      else if balance >= money then Success
      else NotEnoughMoney
  }

  /**
   * When every known card number is a generated one, the transfer gets past
   * the card check exactly for the known card numbers: the checksum test
   * never rejects an existing card and never matters for an unknown one.
   */
  lemma TransferAcceptsExactlyKnownCards(cardNumbers: map<string, int>, input: string, balance: int, money: int)
    requires forall card :: card in cardNumbers ==> IsGeneratedCard(card)
    ensures var r := TransferOutcomeOf(cardNumbers, input, balance, money);
      r == Success || r == NotEnoughMoney <==> input in cardNumbers
    ensures input in cardNumbers ==> (TransferOutcomeOf(cardNumbers, input, balance, money) == Success <==> balance >= money)
  {
    if input in cardNumbers {
      GeneratedCardPassesCheck(input);
    }
  }

  /** Changing the check digit of a generated card number makes the transfer fail the card check. */
  lemma AlteredCheckDigitRejected(card: string, d: nat)
    requires IsGeneratedCard(card) && d < 10 && Char(d) != card[15]
    ensures CheckCard(card[..15] + [Char(d)]) == Mismatch
  {
    var altered := card[..15] + [Char(d)];
    assert altered[..15] == card[..15];
    assert card == card[..15] + [card[15]];
    CheckDigitCompletes(card[..15], d);
    CheckDigitCompletes(card[..15], Value(card[15]));
    CheckCardIsIsoValidation(card);
    CheckCardIsIsoValidation(altered);
  }

  /**
   * The amount's sign is not checked: a negative transfer to a known card
   * succeeds whenever the balance is non-negative, and DoTransfer then raises
   * the balance. Only a balance below the (negative) amount stops it.
   */
  lemma NegativeTransferRaisesBalance(cardNumbers: map<string, int>, input: string, balance: int, money: int)
    requires forall card :: card in cardNumbers ==> IsGeneratedCard(card)
    requires input in cardNumbers && money < 0
    ensures 0 <= balance ==> TransferOutcomeOf(cardNumbers, input, balance, money) == Success
    ensures TransferOutcomeOf(cardNumbers, input, balance, money) == Success <==> balance >= money
  {
    TransferAcceptsExactlyKnownCards(cardNumbers, input, balance, money);
  }

  class BankingSystem {
    var cardNumbers: map<string, int>
    var accounts: map<Credentials, int>

    ghost predicate Valid()
      reads this
    {
      LedgerInvariant(cardNumbers, accounts)
    }

    constructor ()
      ensures Valid()
      ensures cardNumbers == map[] && accounts == map[]
    {
      cardNumbers := map[];
      accounts := map[];
    }

    /**
     * accountExists: a lookup in cardNumbers only. Under the invariant an
     * existing number is a generated card, and every card of the account set exists.
     */
    function AccountExists(accountNumber: string): (r: bool)
      reads this
      ensures r && LedgerInvariant(cardNumbers, accounts) ==> IsGeneratedCard(accountNumber)
      ensures LedgerInvariant(cardNumbers, accounts) && (exists pin :: Credentials(accountNumber, pin) in accounts) ==> r
    {
      accountNumber in cardNumbers
    }

    /** Whether the account set holds an element equal to an account with these credentials. */
    predicate Authenticates(key: Credentials)
      reads this
    {
      key in accounts
    }

    /** createAccount, with the nine random card digits and four random PIN digits supplied by the caller. */
    method CreateAccount(cardDigits: seq<int>, pinDigits: seq<int>) returns (cardNumber: string, pin: int)
      requires Valid()
      requires CardDigitsInRange(cardDigits) && PinDigitsInRange(pinDigits)
      modifies this
      ensures Valid()
      ensures IsGeneratedCard(cardNumber) && IsValid(cardNumber)
      ensures forall k :: 0 <= k < 9 ==> cardNumber[6 + k] == Char(cardDigits[k])
      ensures IsGeneratedPin(pin)
      ensures pin == 1000 * pinDigits[0] + 100 * pinDigits[1] + 10 * pinDigits[2] + pinDigits[3]
      ensures cardNumbers == old(cardNumbers)[cardNumber := pin]
      ensures accounts == old(accounts)[Credentials(cardNumber, pin) := 0]
      ensures AccountExists(cardNumber) && Authenticates(Credentials(cardNumber, pin))
    {
      cardNumber := GenerateCardNumber(cardDigits);
      pin := GeneratePIN(pinDigits);
      CreateKeepsInvariant(cardNumbers, accounts, cardNumber, pin);
      var balance := 0;
      var account := new UserAccount(cardNumber, pin, balance);
      cardNumbers := cardNumbers[cardNumber := pin];
      if account.Key() !in accounts {
        // HashSet.add leaves an equal element that is already present in place
        accounts := accounts[account.Key() := account.balance];
      }
    }

    /** checkCredentials: membership of the set, by (card number, PIN). */
    method CheckCredentials(user: UserAccount) returns (loggedIn: bool)
      ensures loggedIn <==> Authenticates(Credentials(user.cardNumber, user.pin))
    {
      loggedIn := user.Key() in accounts;
    }

    /**
     * logIn without the console: the session is a NEW UserAccount with the
     * typed credentials and balance 0, never the element stored in the set.
     */
    method LogIn(cardNumber: string, pin: int) returns (session: UserAccount, loggedIn: bool)
      ensures fresh(session)
      ensures session.cardNumber == cardNumber && session.pin == pin && session.balance == 0
      ensures loggedIn <==> Authenticates(Credentials(cardNumber, pin))
    {
      session := new UserAccount(cardNumber, pin, 0);
      loggedIn := CheckCredentials(session);
    }

    /** addIncome: the session balance grows by the amount, whatever its sign. */
    method AddIncome(user: UserAccount, income: int)
      modifies user
      ensures user.balance == old(user.balance) + income
      ensures user.cardNumber == old(user.cardNumber) && user.pin == old(user.pin)
      ensures cardNumbers == old(cardNumbers) && accounts == old(accounts)
    {
      var currentBalance := user.balance;
      var newBalance := currentBalance + income;
      user.SetBalance(newBalance);
    }

    /**
     * doTransfer, with the typed target and amount as parameters. Only the
     * session balance can change; nothing is credited to the target.
     */
    method DoTransfer(user: UserAccount, input: string, money: int) returns (outcome: TransferOutcome)
      modifies user
      ensures outcome == TransferOutcomeOf(cardNumbers, input, old(user.balance), money)
      ensures user.balance == if outcome == Success then old(user.balance) - money else old(user.balance)
      ensures outcome == Success && money < 0 ==> user.balance > old(user.balance)
      ensures user.cardNumber == old(user.cardNumber) && user.pin == old(user.pin)
      ensures cardNumbers == old(cardNumbers) && accounts == old(accounts)
    {
      if |input| == 0 {
        // input.substring(0, -1) throws
        return Aborted;
      }
      var prefix := input[..|input| - 1];
      if !OddPositionsAreDigits(prefix) {
        // findChecksum throws before anything has changed
        return Aborted;
      }
      var checksum := FindChecksum(prefix);
      if checksum == NumericValue(input[|input| - 1]) && AccountExists(input) {
        var balance := user.balance;
        if balance >= money {
          user.SetBalance(balance - money);
          outcome := Success;
        } else {
          outcome := NotEnoughMoney;
        }
      } else {
        outcome := WrongCard;
      }
    }

    /** closeAccount: the account leaves the set, its card number stays in cardNumbers. */
    method CloseAccount(user: UserAccount)
      requires Valid()
      modifies this
      ensures Valid()
      ensures accounts == old(accounts) - {Credentials(user.cardNumber, user.pin)}
      ensures cardNumbers == old(cardNumbers)
      ensures !Authenticates(Credentials(user.cardNumber, user.pin))
      ensures old(AccountExists(user.cardNumber)) ==> AccountExists(user.cardNumber)
    {
      accounts := accounts - {user.Key()};
    }
  }

  /**
   * The observable story of one account: it is created with balance 0, a
   * transfer to a number with a changed check digit
   * or beyond the balance changes nothing, and after closing, its
   * credentials are refused while its card number still receives transfers.
   */
  method AccountLifecycle(bank: BankingSystem, cardDigits: seq<int>, pinDigits: seq<int>)
    requires bank.Valid()
    requires CardDigitsInRange(cardDigits) && PinDigitsInRange(pinDigits)
    modifies bank
  {
    var card, pin := bank.CreateAccount(cardDigits, pinDigits);
    var session, ok := bank.LogIn(card, pin);
    assert ok && session.balance == 0;

    bank.AddIncome(session, 100);
    assert session.balance == 100;

    var d: nat := if card[15] == '0' then 1 else 0;
    AlteredCheckDigitRejected(card, d);
    var outcome := bank.DoTransfer(session, card[..15] + [Char(d)], 50);
    assert outcome == WrongCard && session.balance == 100;

    TransferAcceptsExactlyKnownCards(bank.cardNumbers, card, 100, 101);
    outcome := bank.DoTransfer(session, card, 101);
    assert outcome == NotEnoughMoney && session.balance == 100;

    bank.CloseAccount(session);
    var _, again := bank.LogIn(card, pin);
    assert !again;

    var other := new UserAccount(card, pin, 30);
    TransferAcceptsExactlyKnownCards(bank.cardNumbers, card, 30, 30);
    outcome := bank.DoTransfer(other, card, 30);
    assert outcome == Success && other.balance == 0;
  }
}
