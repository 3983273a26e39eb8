/** The text of an address, and when classified addresses share one. */
module AddressText {
  import opened Records
  import BlockInfo

  /** The first six hex digits of the SHA-512 hash of each family's name. */
  const ACCOUNT_PREFIX := "112007"
  const SWAP_PREFIX := "78173b"
  const KEY_PREFIX := "a23be1"
  const SETTINGS_PREFIX := "000000"

  /** `settingDigest` stands for the hashed parts of a setting's key. */
  function Text(settingDigest: string -> string, a: Address): string {
    match a
    case AccountAddr(digest) => ACCOUNT_PREFIX + digest
    case SwapAddr(digest) => SWAP_PREFIX + digest
    case KeyAddr(digest) => KEY_PREFIX + digest
    case ZeroAddr => BlockInfo.Zeros(70)
    case GenesisAddr => BlockInfo.Zeros(69) + "1"
    case SettingAddr(key) => SETTINGS_PREFIX + settingDigest(key)
    case ConfigAddr => BlockInfo.CONFIG_ADDRESS
    case BlockAddr(num) => BlockInfo.CreateBlockAddress(num)
  }

  /** The texts of all addresses, spelled out. */
  lemma TextsSpelledOut(c: Crypto, id: string, num: nat)
    ensures Text(c.settingDigest, c.AccountOf(id)) == "112007" + c.digest(id)
    ensures Text(c.settingDigest, c.SwapOf(id)) == "78173b" + c.digest(id)
    ensures Text(c.settingDigest, c.KeyOf(id)) == "a23be1" + c.digest(id)
    ensures Text(c.settingDigest, SettingAddr(id)) == "000000" + c.settingDigest(id)
    ensures Text(c.settingDigest, ZeroAddr) == seq(70, _ => '0')
    ensures Text(c.settingDigest, GenesisAddr) == seq(69, _ => '0') + "1"
    ensures Text(c.settingDigest, ConfigAddr) == "00b10c01" + seq(62, _ => '0')
    ensures |Text(c.settingDigest, BlockAddr(num))| >= 70 && Text(c.settingDigest, BlockAddr(num))[..8] == "00b10c00"
  {
  }

  /** Two public keys or swap ids share an address exactly when their hashes are equal. */
  lemma SameIdsIff(c: Crypto, x: string, y: string)
    ensures c.AccountOf(x) == c.AccountOf(y) <==> c.digest(x) == c.digest(y)
    ensures c.SwapOf(x) == c.SwapOf(y) <==> c.digest(x) == c.digest(y)
    ensures c.KeyOf(x) == c.KeyOf(y) <==> c.digest(x) == c.digest(y)
  {
  }

  /** The first six characters, which name the namespace. */
  function Prefix(a: Address): string {
    match a
    case AccountAddr(_) => ACCOUNT_PREFIX
    case SwapAddr(_) => SWAP_PREFIX
    case KeyAddr(_) => KEY_PREFIX
    case ConfigAddr => BlockInfo.NAMESPACE
    case BlockAddr(_) => BlockInfo.NAMESPACE
    case _ => SETTINGS_PREFIX
  }

  lemma TextHasPrefix(settingDigest: string -> string, a: Address)
    ensures |Text(settingDigest, a)| >= 6 && Text(settingDigest, a)[..6] == Prefix(a)
  {
    if a.ZeroAddr? || a.GenesisAddr? {
      assert Text(settingDigest, a)[..6] == SETTINGS_PREFIX;
    } else if a.BlockAddr? {
      assert Text(settingDigest, a)[..6] == BlockInfo.NAMESPACE;
    } else if a.ConfigAddr? {
      assert Text(settingDigest, a)[..6] == BlockInfo.NAMESPACE;
    }
  }

  /** The part after the prefix of the addresses that share the settings' prefix. */
  function Tail(settingDigest: string -> string, a: Address): string {
    match a
    case ZeroAddr => BlockInfo.Zeros(64)
    case GenesisAddr => BlockInfo.Zeros(63) + "1"
    case SettingAddr(key) => settingDigest(key)
    case _ => ""
  }

  lemma TextHasTail(settingDigest: string -> string, a: Address)
    requires a.ZeroAddr? || a.GenesisAddr? || a.SettingAddr?
    ensures Text(settingDigest, a) == SETTINGS_PREFIX + Tail(settingDigest, a)
  {
    assert SETTINGS_PREFIX == BlockInfo.Zeros(6);
  }

  /** Two addresses have the same text if and only if they are the same, or one is a setting whose
      hashed key is that of another setting or spells the rest of the zero or genesis address. */
  lemma SameTextIff(settingDigest: string -> string, a: Address, b: Address)
    ensures Text(settingDigest, a) == Text(settingDigest, b) <==>
      || a == b
      || (&& (a.SettingAddr? || b.SettingAddr?) && Prefix(a) == Prefix(b) == SETTINGS_PREFIX
          && Tail(settingDigest, a) == Tail(settingDigest, b))
  {
    TextHasPrefix(settingDigest, a);
    TextHasPrefix(settingDigest, b);
    if Text(settingDigest, a) == Text(settingDigest, b) {
      SamePrefix(a, b);
    }
    if Prefix(a) == Prefix(b) == SETTINGS_PREFIX {
      SettingsPrefix(a);
      SettingsPrefix(b);
      TextHasTail(settingDigest, a);
      TextHasTail(settingDigest, b);
      assert Text(settingDigest, a)[6..] == Tail(settingDigest, a);
      assert Text(settingDigest, b)[6..] == Tail(settingDigest, b);
      assert BlockInfo.Zeros(64)[63] != (BlockInfo.Zeros(63) + "1")[63];
    } else if Text(settingDigest, a) == Text(settingDigest, b) {
      SameTextElsewhere(settingDigest, a, b);
    }
  }

  lemma SettingsPrefix(a: Address)
    requires Prefix(a) == SETTINGS_PREFIX
    ensures a.ZeroAddr? || a.GenesisAddr? || a.SettingAddr?
  {
    SamePrefix(a, ZeroAddr);
  }

  lemma SameTextElsewhere(settingDigest: string -> string, a: Address, b: Address)
    requires Text(settingDigest, a) == Text(settingDigest, b) && Prefix(a) == Prefix(b) != SETTINGS_PREFIX
    ensures a == b
  {
    SamePrefix(a, b);
    var x, y := Text(settingDigest, a), Text(settingDigest, b);
    if a.AccountAddr? || a.SwapAddr? || a.KeyAddr? {
      assert x[6..] == a.digest && y[6..] == b.digest;
    } else if a.BlockAddr? && b.BlockAddr? {
      BlockInfo.AddressesDiffer(a.num, b.num);
    } else if a.BlockAddr? {
      BlockInfo.NeverTheConfigAddress(a.num);
    } else if b.BlockAddr? {
      BlockInfo.NeverTheConfigAddress(b.num);
    }
  }

  lemma SamePrefix(a: Address, b: Address)
    requires Prefix(a) == Prefix(b)
    ensures a.AccountAddr? <==> b.AccountAddr?
    ensures a.SwapAddr? <==> b.SwapAddr?
    ensures a.KeyAddr? <==> b.KeyAddr?
    ensures a.BlockAddr? || a.ConfigAddr? <==> b.BlockAddr? || b.ConfigAddr?
  {
    assert ACCOUNT_PREFIX[0] == '1' && SWAP_PREFIX[0] == '7' && KEY_PREFIX[0] == 'a';
    assert SETTINGS_PREFIX[0] == '0' && BlockInfo.NAMESPACE[0] == '0';
    assert SETTINGS_PREFIX[2] == '0' && BlockInfo.NAMESPACE[2] == 'b';
  }
}
