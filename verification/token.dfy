// Pure balance arithmetic of the Soroban token proof of concept
// (contracts/kani-poc/src/lib.rs): transfer, mint and burn on i128
// balances, each checked for overflow, and the properties its
// Kani proofs state about them.

module TokenBalances {
  import opened Results

  const I128_MIN: int := -0x8000_0000_0000_0000_0000_0000_0000_0000
  const I128_MAX: int := 0x7fff_ffff_ffff_ffff_ffff_ffff_ffff_ffff

  type I128 = x: int | I128_MIN <= x <= I128_MAX

  predicate InI128(x: int)
  {
    I128_MIN <= x <= I128_MAX
  }

  /** `transfer_pure`: the new sender and receiver balances, or why the transfer is refused. */
  function Transfer(balanceFrom: I128, balanceTo: I128, amount: I128): Result<(I128, I128), string>
  {
    if amount <= 0 then Err("Amount must be positive")
    else if !InI128(balanceFrom - amount) then Err("Insufficient balance")
    else if !InI128(balanceTo + amount) then Err("Receiver balance overflow")
    else Ok((balanceFrom - amount, balanceTo + amount))
  }

  /** `mint_pure`: the balance after minting `amount`. */
  function Mint(balance: I128, amount: I128): Result<I128, string>
  {
    if amount <= 0 then Err("Mint amount must be positive")
    else if !InI128(balance + amount) then Err("Mint overflow")
    else Ok(balance + amount)
  }

  /** `burn_pure`: the balance after burning `amount`. */
  function Burn(balance: I128, amount: I128): Result<I128, string>
  {
    if amount <= 0 then Err("Burn amount must be positive")
    else if !InI128(balance - amount) then Err("Insufficient balance to burn")
    else Ok(balance - amount)
  }

  /**
   * A transfer moves exactly `amount` and conserves the sum of the two
   * balances; it is refused exactly when the amount is not positive or one
   * of the new balances leaves the i128 range.
   */
  lemma TransferConserves(balanceFrom: I128, balanceTo: I128, amount: I128)
    ensures Transfer(balanceFrom, balanceTo, amount).Ok? <==>
      (amount > 0 && InI128(balanceFrom - amount) && InI128(balanceTo + amount))
    ensures Transfer(balanceFrom, balanceTo, amount).Ok? ==>
      var (newFrom, newTo) := Transfer(balanceFrom, balanceTo, amount).value;
      newFrom == balanceFrom - amount && newTo == balanceTo + amount &&
      newFrom + newTo == balanceFrom + balanceTo
  {
  }

  /** The conservation proof: under its assumptions the transfer always succeeds. */
  lemma TransferProofAssumptionsSucceed(balanceFrom: I128, balanceTo: I128, amount: I128)
    requires amount > 0 && balanceFrom >= amount && balanceTo >= 0 && balanceTo <= I128_MAX - amount
    ensures Transfer(balanceFrom, balanceTo, amount) == Ok((balanceFrom - amount, balanceTo + amount))
  {
  }

  /**
   * The insufficient-balance proof claims that a sender holding less than
   * `amount` is refused; i128 subtraction only fails below `i128::MIN`, so
   * an empty account can send 5 and go to -5.
   */
  lemma TransferAllowsOverdraft()
    ensures Transfer(0, 0, 5) == Ok((-5, 5))
  {
  }

  /** A transfer that refuses to overdraw the sender, as that proof expects. */
  function TransferChecked(balanceFrom: I128, balanceTo: I128, amount: I128): (r: Result<(I128, I128), string>)
    ensures amount > 0 && balanceFrom < amount ==> r == Err("Insufficient balance")
    ensures r.Ok? ==> r == Transfer(balanceFrom, balanceTo, amount) && r.value.0 >= 0
    ensures !(amount > 0 && balanceFrom < amount) ==> r == Transfer(balanceFrom, balanceTo, amount)
  {
    if amount > 0 && balanceFrom < amount then Err("Insufficient balance")
    else Transfer(balanceFrom, balanceTo, amount)
  }

  /** Mint adds exactly `amount` and fails only on a non-positive amount or an overflow. */
  lemma MintAdds(balance: I128, amount: I128)
    ensures Mint(balance, amount).Ok? <==> amount > 0 && balance + amount <= I128_MAX
    ensures Mint(balance, amount).Ok? ==> Mint(balance, amount).value == balance + amount
  {
  }

  /** Burn subtracts exactly `amount`; a balance below `amount` is not refused. */
  lemma BurnSubtracts(balance: I128, amount: I128)
    ensures Burn(balance, amount).Ok? <==> amount > 0 && balance - amount >= I128_MIN
    ensures Burn(balance, amount).Ok? ==> Burn(balance, amount).value == balance - amount
  {
  }

  /** Burning 5 from an empty balance succeeds, despite the "Insufficient balance to burn" error. */
  lemma BurnAllowsNegative()
    ensures Burn(0, 5) == Ok(-5)
  {
  }

  /** A burn that refuses to take a balance below zero, as its error message intends. */
  function BurnChecked(balance: I128, amount: I128): (r: Result<I128, string>)
    ensures amount > 0 && balance < amount ==> r == Err("Insufficient balance to burn")
    ensures r.Ok? ==> r == Burn(balance, amount) && r.value >= 0
    ensures !(amount > 0 && balance < amount) ==> r == Burn(balance, amount)
  {
    if amount > 0 && balance < amount then Err("Insufficient balance to burn")
    else Burn(balance, amount)
  }

  /**
   * The checked transfer succeeds exactly when the amount is positive, the
   * sender holds it and the receiver does not overflow, and then moves it.
   */
  lemma TransferCheckedSucceedsIff(balanceFrom: I128, balanceTo: I128, amount: I128)
    ensures TransferChecked(balanceFrom, balanceTo, amount).Ok? <==>
      amount > 0 && balanceFrom >= amount && balanceTo + amount <= I128_MAX
    ensures TransferChecked(balanceFrom, balanceTo, amount).Ok? ==>
      TransferChecked(balanceFrom, balanceTo, amount).value == (balanceFrom - amount, balanceTo + amount)
  {
  }

  /** The checked burn succeeds exactly when the amount is positive and at most the balance. */
  lemma BurnCheckedSucceedsIff(balance: I128, amount: I128)
    ensures BurnChecked(balance, amount).Ok? <==> amount > 0 && balance >= amount
    ensures BurnChecked(balance, amount).Ok? ==> BurnChecked(balance, amount).value == balance - amount
  {
  }

  /** Minting and then burning the same amount restores the balance. */
  lemma MintThenBurnRestores(balance: I128, amount: I128)
    requires Mint(balance, amount).Ok?
    ensures Burn(Mint(balance, amount).value, amount) == Ok(balance)
  {
  }

  /** The contract's `transfer` wrapper: `None` stands for the `expect` panic on a refused transfer. */
  function ContractTransfer(balanceFrom: I128, balanceTo: I128, amount: I128): (r: Option<(I128, I128)>)
    ensures r.Some? <==> Transfer(balanceFrom, balanceTo, amount).Ok?
    ensures r.Some? ==> r.value == Transfer(balanceFrom, balanceTo, amount).value
    ensures r.Some? ==> r.value.0 + r.value.1 == balanceFrom + balanceTo
  {
    match Transfer(balanceFrom, balanceTo, amount)
    case Ok(balances) => Some(balances)
    case Err(_) => None
  }
}
