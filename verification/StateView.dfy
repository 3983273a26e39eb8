/** What a handler can see of the state, and how it reads it. */
module StateView {
  import opened Wrappers
  import opened Records

  /** A declared input or output: one full address, or all addresses under a prefix. Which these are
      does not matter to any theorem, so any region of addresses will do. */
  datatype Scope = Only(address: Address) | Under(region: Address -> bool)
  {
    predicate Contains(a: Address) {
      if Only? then a == address else region(a)
    }
  }

  predicate IsBlock(a: Address) {
    a.BlockAddr?
  }

  /** The block namespace as a whole. */
  const ALL_BLOCKS := Under(IsBlock)

  predicate Covers(scopes: seq<Scope>, a: Address) {
    exists i | 0 <= i < |scopes| :: scopes[i].Contains(a)
  }

  predicate CoversAll(scopes: seq<Scope>, addresses: set<Address>) {
    forall a | a in addresses :: Covers(scopes, a)
  }

  /** What reading a stored message as a message of another kind gives: nothing, or whatever `misread`
      makes of it. Protobuf's own behaviour is one of the latter. */
  datatype Parser = Strict | Lenient(misread: (Kind, Record) -> Option<Record>)

  /** The context of a transaction: the state, of which only the declared inputs may be read. */
  datatype View = View(state: State, inputs: seq<Scope>, parser: Parser := Strict)

  function Lookup(s: State, a: Address): Option<Record> {
    if a in s then Some(s[a]) else None
  }

  /** Parsing stored data as a message of the given kind. */
  function Decode(parser: Parser, kind: Kind, data: Option<Record>): (r: Option<Record>)
    ensures r.Some? ==> KindOf(r.value) == kind
  {
    if data.None? then None
    else if KindOf(data.value) == kind then data
    else if parser.Strict? then None
    else
      var other := parser.misread(kind, data.value);
      if other.Some? && KindOf(other.value) == kind then other else None
  }

  function Read(v: View, kind: Kind, a: Address): (r: Result<Option<Record>>)
    ensures r.Ok? && r.value.Some? ==> KindOf(r.value.value) == kind
  {
    if Covers(v.inputs, a) then Ok(Decode(v.parser, kind, Lookup(v.state, a))) else Err(Unauthorized)
  }

  /** All handlers treat an absent account as a fresh one. */
  function ReadAccount(v: View, a: Address): Result<Account> {
    var r :- Read(v, AccountKind, a);
    Ok(if r.Some? then r.value.account else NEW_ACCOUNT)
  }

  function ReadAll(v: View, resolvers: seq<(Address, Kind)>): Result<seq<Option<Record>>> {
    if resolvers == [] then Ok([])
    else
      var first :- Read(v, resolvers[0].1, resolvers[0].0);
      var rest :- ReadAll(v, resolvers[1..]);
      Ok([first] + rest)
  }

  function EntryFor(entries: seq<(string, string)>, key: string): Option<string> {
    if entries == [] then None
    else if entries[0].0 == key then Some(entries[0].1)
    else EntryFor(entries[1..], key)
  }

  function ReadSetting(v: View, key: string): Result<Option<string>> {
    var r :- Read(v, SettingKind, SettingAddr(key));
    Ok(if r.Some? then EntryFor(r.value.entries, key) else None)
  }

  /** `balance += value` on a uint64 field. */
  function Credit(account: Account, value: U64): Result<Account> {
    if account.balance + value > MAX_U64 then Err(OutOfRange)
    else Ok(account.(balance := account.balance + value))
  }

  /** `balance -= value` on a uint64 field. */
  function Debit(account: Account, value: U64): Result<Account> {
    if account.balance < value then Err(OutOfRange)
    else Ok(account.(balance := account.balance - value))
  }

  /** The account, setting and clock a state holds, read without any restriction. */
  function AccountAt(s: State, a: Address): Account {
    if a in s && s[a].AccountRec? then s[a].account else NEW_ACCOUNT
  }

  function Balance(s: State, a: Address): U64 {
    AccountAt(s, a).balance
  }

  function SettingAt(s: State, key: string): Option<string> {
    if SettingAddr(key) in s && s[SettingAddr(key)].SettingRec?
    then EntryFor(s[SettingAddr(key)].entries, key) else None
  }
}
