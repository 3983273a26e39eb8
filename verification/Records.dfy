/** Addresses, the records stored at them, and the foreign functions the handlers call. */
module Records {
  import opened Wrappers

  const MAX_U64: nat := 0xFFFF_FFFF_FFFF_FFFF

  type U64 = n: nat | n <= MAX_U64

  /** A state address, classified by the namespace its prefix puts it in. `digest` is the
      part after the family prefix; settings are named by their key. */
  datatype Address =
    | AccountAddr(digest: string)
    | SwapAddr(digest: string)
    | KeyAddr(digest: string)
    | ZeroAddr
    | GenesisAddr
    | SettingAddr(key: string)
    | ConfigAddr
    | BlockAddr(num: nat)
  {
    /** An address tokens may be sent to. */
    predicate IsAccount() {
      AccountAddr? || ZeroAddr?
    }
  }

  datatype Account = Account(balance: U64, pubKeys: seq<Address>)

  datatype SwapState = Opened | LockProvided | Approved | Closed | Expired

  datatype Swap = Swap(
    id: string, state: SwapState, amount: U64, createdAt: nat, lock: string, secretKey: string,
    sender: Address, receiver: Address, isInitiator: bool)
  {
    predicate Finished() {
      state.Closed? || state.Expired?
    }
  }

  /** `config` is the public key of whichever configuration is set; `body` stands for the
      fields the handlers only copy. */
  datatype KeyPayload = KeyPayload(config: Option<string>, validFrom: nat, validTo: nat, body: string)

  datatype KeyInfo = KeyInfo(owner: string, payload: KeyPayload, revoked: bool)

  datatype Record =
    | AccountRec(account: Account)
    | SwapRec(swap: Swap)
    | KeyRec(info: KeyInfo)
    | GenesisRec(status: bool)
    | SettingRec(entries: seq<(string, string)>)
    | ConfigRec(latest: nat, oldest: nat)
    | BlockRec(blockNum: nat, timestamp: nat)

  datatype Kind = AccountKind | SwapKind | KeyKind | GenesisKind | SettingKind | ConfigKind | BlockKind

  function KindOf(r: Record): Kind {
    match r
    case AccountRec(_) => AccountKind
    case SwapRec(_) => SwapKind
    case KeyRec(_) => KeyKind
    case GenesisRec(_) => GenesisKind
    case SettingRec(_) => SettingKind
    case ConfigRec(_, _) => ConfigKind
    case BlockRec(_, _) => BlockKind
  }

  /** The kind of record an address is meant for. */
  function HomeKind(a: Address): Kind {
    match a
    case AccountAddr(_) => AccountKind
    case ZeroAddr => AccountKind
    case SwapAddr(_) => SwapKind
    case KeyAddr(_) => KeyKind
    case GenesisAddr => GenesisKind
    case SettingAddr(_) => SettingKind
    case ConfigAddr => ConfigKind
    case BlockAddr(_) => BlockKind
  }

  type State = map<Address, Record>
  type Update = map<Address, Record>

  const NEW_ACCOUNT := Account(0, [])

  /** Library functions the model does not look into. Every theorem holds for all of them. */
  datatype Crypto = Crypto(
    digest: string -> string,
    settingDigest: string -> string,
    keccak: string -> Option<string>,
    keyVerifies: KeyPayload -> bool,
    ownerSigned: (string, string, KeyPayload) -> Option<bool>,
    parseInt: string -> Option<int>)
  {
    function AccountOf(publicKey: string): Address {
      AccountAddr(digest(publicKey))
    }

    function SwapOf(swapId: string): Address {
      SwapAddr(digest(swapId))
    }

    function KeyOf(publicKey: string): Address {
      KeyAddr(digest(publicKey))
    }
  }
}
