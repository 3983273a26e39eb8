/** The `account` transaction family. */
module AccountFamily {
  import opened Wrappers
  import opened Records
  import opened StateView

  function Genesis(c: Crypto, v: View, signer: string, supply: U64): Result<Update> {
    var status :- Read(v, GenesisKind, GenesisAddr);
    if status.Some? && status.value.status then Err(GenesisRepeated)
    else
      var kept := if status.None? then GenesisRec(true) else status.value;
      Ok(map[c.AccountOf(signer) := AccountRec(Account(supply, [])), GenesisAddr := kept])
  }

  function TransferFrom(v: View, from: Address, to: Address, value: U64): (r: Result<Update>)
    ensures r.Ok? ==> r.value.Keys == {from, to} && r.value[from].AccountRec? && r.value[to].AccountRec?
  {
    if value == 0 then Err(ZeroAmount)
    else if !to.IsAccount() then Err(NotAnAccount)
    else if from == to then Err(SelfTransfer)
    else
      var sender :- ReadAccount(v, from);
      var receiver :- ReadAccount(v, to);
      if sender.balance < value then Err(LowBalance)
      else
        var credited :- Credit(receiver, value);
        var debited :- Debit(sender, value);
        Ok(map[from := AccountRec(debited), to := AccountRec(credited)])
  }

  function Transfer(c: Crypto, v: View, signer: string, to: Address, value: U64): Result<Update> {
    TransferFrom(v, c.AccountOf(signer), to, value)
  }
}
