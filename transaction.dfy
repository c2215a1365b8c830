/** Typed transaction records: the identifier newtypes, the closed set of
    transaction types, and the parser that builds a record from its text fields. */
module Transactions {
  import opened Errors

  newtype U16 = x: int | 0 <= x < 0x1_0000
  newtype U32 = x: int | 0 <= x < 0x1_0000_0000

  /** Money in fixed-point ten-thousandths of a currency unit (chain_tx's Rust code uses `f32`). */
  type Amount = int

  datatype ClientId = ClientId(value: U16) {
    /** The wrapped integer, which rebuilds this very id. */
    function Deref(): (v: U16)
      ensures ClientId(v) == this
    {
      value
    }
  }

  datatype TransactionId = TransactionId(value: U32) {
    function Deref(): (v: U32)
      ensures TransactionId(v) == this
    {
      value
    }
  }

  /** Wraps an integer as a client id; dereferencing gives it back. */
  function ClientIdFrom(v: U16): (id: ClientId)
    ensures id.Deref() == v
  {
    ClientId(v)
  }

  function TransactionIdFrom(v: U32): (id: TransactionId)
    ensures id.Deref() == v
  {
    TransactionId(v)
  }

  /** Wrapping an integer in an identifier and reading it back loses nothing, both ways. */
  lemma IdentifierRoundTrip(c: U16, t: U32, id: ClientId, tid: TransactionId)
    ensures ClientIdFrom(c).Deref() == c && ClientIdFrom(id.Deref()) == id
    ensures TransactionIdFrom(t).Deref() == t && TransactionIdFrom(tid.Deref()) == tid
  {
  }

  datatype TransactionType = Deposit | Withdrawal | Dispute | Resolve | Chargeback

  datatype Transaction = Transaction(ty: TransactionType, client: ClientId, tx: TransactionId, amount: Amount)

  /** The spelling of each transaction type in the input. */
  function TypeName(t: TransactionType): (name: string) {
    match t
    case Deposit => "deposit"
    case Withdrawal => "withdrawal"
    case Dispute => "dispute"
    case Resolve => "resolve"
    case Chargeback => "chargeback"
  }

  function TypeFromStr(s: string): (r: Result<TransactionType>)
    ensures r.Err? ==> r.error == ParseError(TypeField)
  {
    if s == "deposit" then Ok(Deposit)
    else if s == "withdrawal" then Ok(Withdrawal)
    else if s == "dispute" then Ok(Dispute)
    else if s == "resolve" then Ok(Resolve)
    else if s == "chargeback" then Ok(Chargeback)
    else Err(ParseError(TypeField))
  }

  /** Exactly the five spellings are accepted, each for its own type. */
  lemma TypeFromStrExact(s: string, t: TransactionType)
    ensures TypeFromStr(s) == Ok(t) <==> s == TypeName(t)
  {
  }

  // ---------------------------------------------------------------------------
  // Unsigned decimal integers, as read by the standard library's integer parser:
  // an optional '+', then one or more ASCII digits, and a value within range.

  predicate IsDigit(c: char) { '0' <= c <= '9' }

  predicate AllDigits(s: string) { forall i :: 0 <= i < |s| ==> IsDigit(s[i]) }

  function DigitValue(c: char): (d: nat) requires IsDigit(c) { (c as int) - ('0' as int) }

  function DigitChar(d: nat): (c: char)
    requires d < 10
    ensures IsDigit(c) && DigitValue(c) == d
  {
    (('0' as int) + d) as char
  }

  /** The value of a digit string, most significant digit first. */
  function DigitsValue(s: string): (n: nat)
    requires AllDigits(s)
  {
    if |s| == 0 then 0 else DigitsValue(s[..|s| - 1]) * 10 + DigitValue(s[|s| - 1])
  }

  /** The canonical decimal spelling of `n`: no sign, no leading zeros. */
  function Decimal(n: nat): (s: string) {
    if n < 10 then [DigitChar(n)] else Decimal(n / 10) + [DigitChar(n % 10)]
  }

  /** Reads `s` as an unsigned integer below `bound`; `None` on any malformed or
      out-of-range text. */
  function ParseUnsigned(s: string, bound: nat): (r: Option<nat>)
    ensures r.Some? ==> r.value < bound
  {
    var digits := if |s| > 0 && s[0] == '+' then s[1..] else s;
    if |digits| == 0 || !AllDigits(digits) then None
    else if DigitsValue(digits) < bound then Some(DigitsValue(digits))
    else None
  }

  /** `z` zero digits. */
  function Zeros(z: nat): (s: string)
    ensures |s| == z && AllDigits(s)
  {
    if z == 0 then [] else Zeros(z - 1) + ['0']
  }

  /** `s` writes `n` the way the integer parser accepts: an optional '+', any
      number of leading zeros, then the decimal spelling of `n`. */
  ghost predicate Spells(s: string, n: nat) {
    exists z: nat :: s == Zeros(z) + Decimal(n) || s == "+" + (Zeros(z) + Decimal(n))
  }

  /** The text reads as a `u16` exactly when it spells a number below 2^16. */
  function ParseU16(s: string): (r: Option<U16>)
    ensures r.Some? ==> Spells(s, r.value as nat)
    ensures forall n: nat :: n < 0x1_0000 && Spells(s, n) ==> r == Some(n as U16)
  {
    ParseUnsignedSound(s, 0x1_0000);
    ParseUnsignedComplete(s, 0x1_0000);
    match ParseUnsigned(s, 0x1_0000)
    case Some(v) => Some(v as U16)
    case None => None
  }

  /** The text reads as a `u32` exactly when it spells a number below 2^32. */
  function ParseU32(s: string): (r: Option<U32>)
    ensures r.Some? ==> Spells(s, r.value as nat)
    ensures forall n: nat :: n < 0x1_0000_0000 && Spells(s, n) ==> r == Some(n as U32)
  {
    ParseUnsignedSound(s, 0x1_0000_0000);
    ParseUnsignedComplete(s, 0x1_0000_0000);
    match ParseUnsigned(s, 0x1_0000_0000)
    case Some(v) => Some(v as U32)
    case None => None
  }

  lemma {:induction false} DecimalIsDigits(n: nat)
    ensures |Decimal(n)| > 0 && AllDigits(Decimal(n)) && DigitsValue(Decimal(n)) == n
  {
    if n >= 10 {
      DecimalIsDigits(n / 10);
      var d := Decimal(n / 10);
      var s := d + [DigitChar(n % 10)];
      assert s[..|s| - 1] == d;
    }
  }

  /** Leading zeros do not change the value of a digit string. */
  lemma {:induction false} LeadingZerosValue(z: nat, d: string)
    requires AllDigits(d)
    ensures AllDigits(Zeros(z) + d) && DigitsValue(Zeros(z) + d) == DigitsValue(d)
    decreases z + |d|
  {
    var s := Zeros(z) + d;
    if |d| == 0 {
      assert s == Zeros(z);
      if z > 0 {
        assert s[..|s| - 1] == Zeros(z - 1) + [];
        LeadingZerosValue(z - 1, []);
      }
    } else {
      assert s[..|s| - 1] == Zeros(z) + d[..|d| - 1];
      LeadingZerosValue(z, d[..|d| - 1]);
    }
  }

  lemma DivMod10(m: nat, v: nat)
    requires v < 10
    ensures (m * 10 + v) / 10 == m && (m * 10 + v) % 10 == v
  {
  }

  /** Every non-empty digit string is some zeros followed by the decimal
      spelling of its value. */
  lemma {:induction false} DigitsAreZerosThenDecimal(d: string)
    requires |d| > 0 && AllDigits(d)
    ensures |Decimal(DigitsValue(d))| <= |d|
    ensures d == Zeros(|d| - |Decimal(DigitsValue(d))|) + Decimal(DigitsValue(d))
  {
    var n := DigitsValue(d);
    var c := d[|d| - 1];
    var front := d[..|d| - 1];
    assert d == front + [c];
    var v := DigitValue(c);
    assert DigitChar(v) == c;
    assert n == DigitsValue(front) * 10 + v;
    if |front| == 0 {
      assert Decimal(n) == [c];
      assert d == Zeros(0) + Decimal(n);
    } else {
      DigitsAreZerosThenDecimal(front);
      var m := DigitsValue(front);
      var z := |front| - |Decimal(m)|;
      assert front == Zeros(z) + Decimal(m);
      if m == 0 {
        assert Decimal(n) == [c];
        assert Decimal(m) == ['0'];
        assert d == Zeros(z + 1) + Decimal(n);
      } else {
        DivMod10(m, v);
        assert Decimal(n) == Decimal(m) + [c];
        assert d == Zeros(z) + Decimal(n);
      }
    }
  }

  /** Whatever the parser accepts spells the number it returns. */
  lemma ParseUnsignedSound(s: string, bound: nat)
    ensures ParseUnsigned(s, bound).Some? ==> Spells(s, ParseUnsigned(s, bound).value)
  {
    if ParseUnsigned(s, bound).Some? {
      var digits := if |s| > 0 && s[0] == '+' then s[1..] else s;
      var n := DigitsValue(digits);
      DigitsAreZerosThenDecimal(digits);
      var z := |digits| - |Decimal(n)|;
      if |s| > 0 && s[0] == '+' {
        assert s == "+" + digits;
        assert s == "+" + (Zeros(z) + Decimal(n));
      } else {
        assert s == Zeros(z) + Decimal(n);
      }
    }
  }

  /** Whatever spells a number below the bound is accepted as that number. */
  lemma ParseUnsignedComplete(s: string, bound: nat)
    ensures forall n: nat :: n < bound && Spells(s, n) ==> ParseUnsigned(s, bound) == Some(n)
  {
    forall n: nat | n < bound && Spells(s, n)
      ensures ParseUnsigned(s, bound) == Some(n)
    {
      var z: nat :| s == Zeros(z) + Decimal(n) || s == "+" + (Zeros(z) + Decimal(n));
      ParseZerosThenDecimal(z, n, bound);
    }
  }

  /** A non-empty digit string below the bound, with or without a leading '+',
      reads as its value. */
  lemma ParseDigits(d: string, bound: nat)
    requires |d| > 0 && AllDigits(d) && DigitsValue(d) < bound
    ensures ParseUnsigned(d, bound) == Some(DigitsValue(d))
    ensures ParseUnsigned("+" + d, bound) == Some(DigitsValue(d))
  {
    assert IsDigit(d[0]);
    assert ("+" + d)[1..] == d;
  }

  /** Parsing the decimal spelling of an in-range number gives that number back,
      with or without leading zeros and a leading '+'. */
  lemma ParseZerosThenDecimal(z: nat, n: nat, bound: nat)
    requires n < bound
    ensures ParseUnsigned(Zeros(z) + Decimal(n), bound) == Some(n)
    ensures ParseUnsigned("+" + (Zeros(z) + Decimal(n)), bound) == Some(n)
  {
    DecimalIsDigits(n);
    LeadingZerosValue(z, Decimal(n));
    var d := Zeros(z) + Decimal(n);
    ParseDigits(d, bound);
  }

  /** A well-formed digit string whose value does not fit is rejected. */
  lemma OutOfRangeRejected(s: string, bound: nat)
    requires AllDigits(s) && DigitsValue(s) >= bound
    ensures ParseUnsigned(s, bound) == None
  {
  }

  /** Empty text and a bare '+' are rejected. */
  lemma NoDigitsRejected(s: string, bound: nat)
    requires s == "" || s == "+"
    ensures ParseUnsigned(s, bound) == None
  {
  }

  /** Text with any character other than a digit, but for one leading '+', is
      rejected; so are a '-' sign, spaces, and a second '+'. */
  lemma StrayCharRejected(s: string, i: nat, bound: nat)
    requires i < |s| && !IsDigit(s[i]) && !(i == 0 && s[i] == '+')
    ensures ParseUnsigned(s, bound) == None
  {
    if |s| > 0 && s[0] == '+' {
      assert s[1..][i - 1] == s[i];
    }
  }

  // ---------------------------------------------------------------------------
  // Records from text fields.

  /** Builds a record from the fields `type, client, tx[, amount]`, checking them in
      that order. Reading a decimal amount is a collaborator of this model and is
      passed in as `parseAmount`. */
  function FromFields(fields: seq<string>, parseAmount: string -> Option<Amount>): (r: Result<Transaction>)
    ensures !(|fields| == 3 || |fields| == 4) ==> r == Err(ParseError(FieldCount))
    ensures r.Ok? ==> |fields| == 3 || |fields| == 4
    ensures r.Ok? ==> TypeFromStr(fields[0]) == Ok(r.value.ty)
    ensures r.Ok? ==> ParseU16(fields[1]) == Some(r.value.client.value)
    ensures r.Ok? ==> ParseU32(fields[2]) == Some(r.value.tx.value)
    ensures r.Ok? && |fields| == 4 ==> parseAmount(fields[3]) == Some(r.value.amount)
    ensures r.Ok? && |fields| == 3 ==> r.value.amount == 0
    ensures (|fields| == 3 || |fields| == 4) && TypeFromStr(fields[0]).Err? ==>
      r == Err(ParseError(TypeField))
    ensures (|fields| == 3 || |fields| == 4) && TypeFromStr(fields[0]).Ok? && ParseU16(fields[1]).None? ==>
      r == Err(ParseError(ClientField))
    ensures (|fields| == 3 || |fields| == 4) && TypeFromStr(fields[0]).Ok? && ParseU16(fields[1]).Some?
            && ParseU32(fields[2]).None? ==>
      r == Err(ParseError(TransactionField))
    ensures |fields| == 4 && TypeFromStr(fields[0]).Ok? && ParseU16(fields[1]).Some?
            && ParseU32(fields[2]).Some? && parseAmount(fields[3]).None? ==>
      r == Err(ParseError(AmountField))
  {
    if !(|fields| == 3 || |fields| == 4) then Err(ParseError(FieldCount))
    else match TypeFromStr(fields[0])
      case Err(e) => Err(e)
      case Ok(ty) =>
        match ParseU16(fields[1])
        case None => Err(ParseError(ClientField))
        case Some(client) =>
          match ParseU32(fields[2])
          case None => Err(ParseError(TransactionField))
          case Some(tx) =>
            if |fields| > 3 then
              match parseAmount(fields[3])
              case None => Err(ParseError(AmountField))
              case Some(amount) => Ok(Transaction(ty, ClientIdFrom(client), TransactionIdFrom(tx), amount))
            else Ok(Transaction(ty, ClientIdFrom(client), TransactionIdFrom(tx), 0))
  }

  /** Conversely, when every field reads, the record is exactly the fields read. */
  lemma FromFieldsAccepts(fields: seq<string>, parseAmount: string -> Option<Amount>, ty: TransactionType, client: U16, tx: U32, amount: Amount)
    requires |fields| == 3 || |fields| == 4
    requires TypeFromStr(fields[0]) == Ok(ty) && ParseU16(fields[1]) == Some(client) && ParseU32(fields[2]) == Some(tx)
    requires if |fields| == 4 then parseAmount(fields[3]) == Some(amount) else amount == 0
    ensures FromFields(fields, parseAmount) == Ok(Transaction(ty, ClientId(client), TransactionId(tx), amount))
  {
  }

  /** A client id written in digits whose value does not fit in 16 bits makes the
      record a parse error of the client field. */
  lemma ClientIdOutOfRange(fields: seq<string>, parseAmount: string -> Option<Amount>)
    requires |fields| == 3 || |fields| == 4
    requires TypeFromStr(fields[0]).Ok?
    requires AllDigits(fields[1]) && DigitsValue(fields[1]) >= 0x1_0000
    ensures FromFields(fields, parseAmount) == Err(ParseError(ClientField))
  {
  }

  /** Likewise a transaction id that does not fit in 32 bits. */
  lemma TransactionIdOutOfRange(fields: seq<string>, parseAmount: string -> Option<Amount>)
    requires |fields| == 3 || |fields| == 4
    requires TypeFromStr(fields[0]).Ok? && ParseU16(fields[1]).Some?
    requires AllDigits(fields[2]) && DigitsValue(fields[2]) >= 0x1_0000_0000
    ensures FromFields(fields, parseAmount) == Err(ParseError(TransactionField))
  {
  }
}
