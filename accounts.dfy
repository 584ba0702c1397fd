/**
 * UserAccount: a card number, a PIN and a balance, all three updatable in
 * place, whose identity for equals and hashCode is the pair (card number, PIN).
 */
module Accounts {

  /** The part of a UserAccount that equals and hashCode look at. */
  datatype Credentials = Credentials(cardNumber: string, pin: int)

  /** Java's int conversion: the value of x modulo 2^32, as a signed 32-bit integer. */
  function Int32(x: int): (r: int)
    ensures -0x8000_0000 <= r < 0x8000_0000
    ensures (x - r) % 0x1_0000_0000 == 0
  {
    var m := x % 0x1_0000_0000;
    if m >= 0x8000_0000 then m - 0x1_0000_0000 else m
  }

  /** String.hashCode: h = 31 * h + c over the characters, in 32-bit arithmetic. */
  function StringHash(s: string): (h: int)
    ensures -0x8000_0000 <= h < 0x8000_0000
  {
    if s == [] then 0 else Int32(31 * StringHash(s[..|s| - 1]) + s[|s| - 1] as int)
  }

  /** Objects.hash(cardNumber, pin): 31 * (31 * 1 + cardNumber.hashCode()) + pin, in 32-bit arithmetic. */
  function CredentialsHash(key: Credentials): (h: int)
    ensures -0x8000_0000 <= h < 0x8000_0000
  {
    Int32(31 * Int32(31 + StringHash(key.cardNumber)) + key.pin)
  }

  class UserAccount {
    var cardNumber: string
    var pin: int
    var balance: int

    constructor (cardNumber: string, pin: int, balance: int)
      ensures this.cardNumber == cardNumber && this.pin == pin && this.balance == balance
    {
      this.cardNumber := cardNumber;
      this.pin := pin;
      this.balance := balance;
    }

    function Key(): (k: Credentials)
      reads this
    {
      Credentials(cardNumber, pin)
    }

    method SetCardNumber(cardNumber: string)
      modifies this
      ensures this.cardNumber == cardNumber
      ensures pin == old(pin) && balance == old(balance)
    {
      this.cardNumber := cardNumber;
    }

    method SetPin(pin: int)
      modifies this
      ensures this.pin == pin
      ensures cardNumber == old(cardNumber) && balance == old(balance)
    {
      this.pin := pin;
    }

    method SetBalance(balance: int)
      modifies this
      ensures this.balance == balance
      ensures cardNumber == old(cardNumber) && pin == old(pin)
    {
      this.balance := balance;
    }

    /** equals(Object): the same reference, or another UserAccount with the same card number and PIN. */
    function Equals(obj: object?): (r: bool)
      reads this, obj
      ensures obj == this ==> r
      ensures obj == null || !(obj is UserAccount) ==> !r
      ensures obj is UserAccount ==> (r <==> (obj as UserAccount).Key() == Key())
    {
      if obj == this then true
      else if !(obj is UserAccount) then false
      else
        var acc := obj as UserAccount;
        cardNumber == acc.cardNumber && pin == acc.pin
    }

    function HashCode(): (h: int)
      reads this
      ensures -0x8000_0000 <= h < 0x8000_0000
    {
      CredentialsHash(Key())
    }
  }

  /** Two accounts are equal exactly when their card numbers and PINs are; balances play no part. */
  lemma EqualsIsSameCredentials(a: UserAccount, b: UserAccount)
    ensures a.Equals(b) <==> a.cardNumber == b.cardNumber && a.pin == b.pin
  {
  }

  /** equals is reflexive, rejects null and objects of other classes, and is symmetric and transitive. */
  lemma EqualsIsEquivalence(a: UserAccount, b: UserAccount, c: UserAccount, other: object?)
    requires !(other is UserAccount)
    ensures a.Equals(a)
    ensures !a.Equals(other)
    ensures a.Equals(b) <==> b.Equals(a)
    ensures a.Equals(b) && b.Equals(c) ==> a.Equals(c)
  {
  }

  /** hashCode is consistent with equals. */
  lemma EqualAccountsHashEqually(a: UserAccount, b: UserAccount)
    requires a.Equals(b)
    ensures a.HashCode() == b.HashCode()
  {
  }
}
