/** The `pub_key` transaction family. */
module KeyFamily {
  import opened Wrappers
  import opened Records
  import opened StateView
  import opened AccountFamily

  const ECONOMY_KEY := "remme.economy_enabled"
  const STORE_PRICE: U64 := 10
  const MAX_VALIDITY: nat := 365 * 24 * 3600

  function LowerChar(ch: char): char {
    if 'A' <= ch <= 'Z' then (ch as int + 32) as char else ch
  }

  function Lower(text: string): string {
    seq(|text|, i requires 0 <= i < |text| => LowerChar(text[i]))
  }

  /** An absent setting means the economy is on. */
  function IsEnabled(setting: Option<string>): bool {
    setting.None? || Lower(setting.value) == "true"
  }

  /** Only the word "true", in any mixture of cases, keeps a stored setting from switching the economy off. */
  lemma EnabledSpellings(text: string)
    ensures IsEnabled(Some(text)) <==>
      && |text| == 4
      && text[0] in {'t', 'T'} && text[1] in {'r', 'R'} && text[2] in {'u', 'U'} && text[3] in {'e', 'E'}
  {
    if |text| == 4 {
      assert Lower(text) == [LowerChar(text[0]), LowerChar(text[1]), LowerChar(text[2]), LowerChar(text[3])];
      assert "true" == ['t', 'r', 'u', 'e'];
    }
  }

  predicate ValidityAllowed(payload: KeyPayload) {
    payload.validTo - payload.validFrom <= MAX_VALIDITY
  }

  /** The state change that moves the storing price to the zero address, if there is one. */
  function Charge(v: View, from: Address): (r: Result<Option<Update>>)
    ensures r.Ok? && r.value.Some? ==> r.value.value.Keys == {from, ZeroAddr} && r.value.value[from].AccountRec?
  {
    var setting :- ReadSetting(v, ECONOMY_KEY);
    if !IsEnabled(setting) then Ok(None)
    else if from == ZeroAddr then Err(ZeroPayer)
    else
      var moved :- TransferFrom(v, from, ZeroAddr, STORE_PRICE);
      Ok(Some(moved))
  }

  /** An update together with the charge for storing, which replaces what it overlaps. */
  function WithCharge(v: View, update: Update, payer: Address): (r: Result<Update>)
    ensures r.Ok? && payer in update && update[payer].AccountRec? ==> payer in r.value && r.value[payer].AccountRec?
  {
    var charge :- Charge(v, payer);
    Ok(if charge.Some? then update + charge.value else update)
  }

  function Linked(account: Account, key: Address): Account {
    if key in account.pubKeys then account else account.(pubKeys := account.pubKeys + [key])
  }

  function CheckedKey(c: Crypto, payload: KeyPayload): Result<string> {
    if payload.config.None? then Err(NoConfiguration)
    else if !c.keyVerifies(payload) then Err(BadKeySignature)
    else Ok(payload.config.value)
  }

  /** The address of a key that may be stored. The two accounts involved are read together with it,
      before anything about the key is decided. */
  function NewKey(c: Crypto, v: View, payload: KeyPayload, first: Address, second: Address): Result<Address> {
    var publicKey :- CheckedKey(c, payload);
    var known :- Read(v, KeyKind, c.KeyOf(publicKey));
    var _ :- ReadAccount(v, first);
    var _ :- ReadAccount(v, second);
    if known.Some? then Err(KeyTaken)
    else if !ValidityAllowed(payload) then Err(ValidityTooLong)
    else Ok(c.KeyOf(publicKey))
  }

  function Store(c: Crypto, v: View, signer: string, payload: KeyPayload): Result<Update> {
    var me := c.AccountOf(signer);
    var key :- NewKey(c, v, payload, me, me);
    var account :- ReadAccount(v, me);
    var state: Update := map[me := AccountRec(account), key := KeyRec(KeyInfo(signer, payload, false))];
    var charged :- WithCharge(v, state, me);
    Ok(charged[me := AccountRec(Linked(charged[me].account, key))])
  }

  function StoreFor(c: Crypto, v: View, signer: string, payload: KeyPayload, owner: string,
                    signature: string): Result<Update> {
    var signed := c.ownerSigned(owner, signature, payload);
    if signed.None? then Err(Undecodable)
    else if !signed.value then Err(BadOwnerSignature)
    else
      var ownerAddr, payerAddr := c.AccountOf(owner), c.AccountOf(signer);
      var key :- NewKey(c, v, payload, ownerAddr, payerAddr);
      var ownerAccount :- ReadAccount(v, ownerAddr);
      var payerAccount :- ReadAccount(v, payerAddr);
      var state: Update := map[ownerAddr := AccountRec(ownerAccount), payerAddr := AccountRec(payerAccount),
                               key := KeyRec(KeyInfo(owner, payload, false))];
      var charged :- WithCharge(v, state, payerAddr);
      // The owner's account is the copy read before the charge.
      Ok(charged[ownerAddr := AccountRec(Linked(ownerAccount, key))])
  }

  function Revoke(v: View, signer: string, a: Address): Result<Update> {
    var known :- Read(v, KeyKind, a);
    if known.None? then Err(NoKey)
    else
      var info := known.value.info;
      if info.owner != signer then Err(NotTheOwner)
      else if info.revoked then Err(AlreadyRevoked)
      else Ok(map[a := KeyRec(info.(revoked := true))])
  }
}
