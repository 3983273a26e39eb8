/** The `AtomicSwap` transaction family. */
module SwapFamily {
  import opened Wrappers
  import opened Records
  import opened StateView
  import opened AccountFamily

  const COMMISSION_KEY := "remme.settings.swap_comission"
  const HOUR: nat := 3600

  /** Seconds a sender must wait before withdrawing. */
  function TimeLock(isInitiator: bool): nat {
    if isInitiator then 24 * HOUR else 48 * HOUR
  }

  /** The timestamp of the latest block. */
  function LatestTime(v: View): Result<nat> {
    var config :- Read(v, ConfigKind, ConfigAddr);
    if config.None? then Err(NoBlockConfig)
    else
      var block :- Read(v, BlockKind, BlockAddr(config.value.latest));
      if block.None? then Err(NoBlock) else Ok(block.value.timestamp)
  }

  function Commission(c: Crypto, v: View): Result<nat> {
    var setting :- ReadSetting(v, COMMISSION_KEY);
    var number := if setting.Some? then c.parseInt(setting.value) else None;
    if number.None? then Err(BadSetting)
    else if number.value < 0 then Err(NegativeCommission)
    else Ok(number.value)
  }

  function NewSwap(c: Crypto, signer: string, id: string, receiver: Address, amount: U64, lock: string,
                   now: nat): Swap {
    Swap(id, Opened, amount, now, lock, "", c.AccountOf(signer), receiver, lock == "")
  }

  /** The block time and the commission of a new swap, once its id is free and its sender can pay both. */
  function InitTerms(c: Crypto, v: View, sender: Address, id: string, amount: U64): Result<(nat, U64)> {
    var taken :- Read(v, SwapKind, c.SwapOf(id));
    if taken.Some? then Err(SwapTaken)
    else
      var now :- LatestTime(v);
      var commission :- Commission(c, v);
      var account :- ReadAccount(v, sender);
      if account.balance < amount + commission then Err(LowBalance)
      else Ok((now, commission))  // no larger than the balance, so it fits the transfer payload's uint64
  }

  /** The commission goes to the zero address and the amount leaves the sender for the swap record. */
  function Open(c: Crypto, v: View, swap: Swap, commission: U64): Result<Update> {
    var moved :- TransferFrom(v, swap.sender, ZeroAddr, commission);
    var debited :- Debit(moved[swap.sender].account, swap.amount);
    Ok(map[c.SwapOf(swap.id) := SwapRec(swap)] + moved[swap.sender := AccountRec(debited)])
  }

  function Init(c: Crypto, v: View, signer: string, id: string, receiver: Address, amount: U64,
                lock: string): Result<Update> {
    var (now, commission) :- InitTerms(c, v, c.AccountOf(signer), id, amount);
    Open(c, v, NewSwap(c, signer, id, receiver, amount, lock, now), commission)
  }

  /** A stored swap that is neither closed nor expired. */
  function LiveSwap(v: View, a: Address): Result<Swap> {
    var stored :- Read(v, SwapKind, a);
    if stored.None? then Err(NoSwap)
    else if stored.value.swap.Finished() then Err(SwapFinished)
    else Ok(stored.value.swap)
  }

  function SetLock(c: Crypto, v: View, id: string, lock: string): Result<Update> {
    var swap :- LiveSwap(v, c.SwapOf(id));
    if swap.lock != "" then Err(LockPresent)
    else Ok(map[c.SwapOf(id) := SwapRec(swap.(lock := lock, state := LockProvided))])
  }

  function Approve(c: Crypto, v: View, signer: string, id: string): Result<Update> {
    var swap :- LiveSwap(v, c.SwapOf(id));
    if !swap.isInitiator || swap.sender != c.AccountOf(signer) then Err(NotTheInitiator)
    else if swap.lock == "" then Err(LockMissing)
    else if swap.state != LockProvided then Err(LockNotProvided)
    else Ok(map[c.SwapOf(id) := SwapRec(swap.(state := Approved))])
  }

  function Expire(c: Crypto, v: View, signer: string, id: string): Result<Update> {
    var swap :- LiveSwap(v, c.SwapOf(id));
    if swap.sender != c.AccountOf(signer) then Err(NotTheSender)
    else
      var now :- LatestTime(v);
      if swap.createdAt + TimeLock(swap.isInitiator) > now then Err(TimeLocked)
      else
        var account :- ReadAccount(v, swap.sender);
        var refunded :- Credit(account, swap.amount);
        Ok(map[c.SwapOf(id) := SwapRec(swap.(state := Expired)), swap.sender := AccountRec(refunded)])
  }

  function Close(c: Crypto, v: View, id: string, secretKey: string): Result<Update> {
    var swap :- LiveSwap(v, c.SwapOf(id));
    if swap.lock == "" then Err(LockMissing)
    else
      var hash := c.keccak(secretKey);
      if hash.None? then Err(Undecodable)
      else if hash.value != swap.lock then Err(WrongSecret)
      else if swap.isInitiator && swap.state != Approved then Err(NotApproved)
      else
        var account :- ReadAccount(v, swap.receiver);
        var paid :- Credit(account, swap.amount);
        Ok(map[c.SwapOf(id) := SwapRec(swap.(state := Closed, secretKey := secretKey)),
               swap.receiver := AccountRec(paid)])
  }
}
