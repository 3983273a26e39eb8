/** What the forms ask of texts. A text of digits is turned into a number before it is looked at, so
    that zeros count as missing and an address or swap id without a letter never passes. */
module Forms {
  import opened Records
  import AddressText

  predicate IsDigit(ch: char) {
    '0' <= ch <= '9'
  }

  predicate IsHexDigit(ch: char) {
    IsDigit(ch) || 'a' <= ch <= 'f'
  }

  predicate IsBlank(ch: char) {
    9 <= ch as int <= 13 || 28 <= ch as int <= 32
  }

  predicate IsNumber(text: string) {
    text != "" && forall i | 0 <= i < |text| :: IsDigit(text[i])
  }

  /** A required text: a number other than zero, or something that is not blank. */
  predicate Given(text: string) {
    exists i | 0 <= i < |text| :: if IsNumber(text) then text[i] != '0' else !IsBlank(text[i])
  }

  /** A required text that starts with hex digits: as a number it cannot be matched. */
  predicate StartsWithHex(text: string, count: nat) {
    |text| >= count && !IsNumber(text) && forall i | 0 <= i < count :: IsHexDigit(text[i])
  }

  predicate IsSwapId(id: string) {
    StartsWithHex(id, 64)
  }

  predicate IsAddressField(c: Crypto, a: Address) {
    StartsWithHex(AddressText.Text(c.settingDigest, a), 70)
  }

  lemma DigitIff(ch: char)
    ensures IsDigit(ch) <==> ch in "0123456789"
    ensures IsHexDigit(ch) <==> ch in "0123456789abcdef"
  {
    var digits, letters := "0123456789", "0123456789abcdef";
    if IsDigit(ch) {
      assert digits[ch as int - '0' as int] == letters[ch as int - '0' as int] == ch;
    } else if IsHexDigit(ch) {
      assert letters[10 + ch as int - 'a' as int] == ch;
    }
  }

  /** What a text must be to pass as hex of some length: long enough, hex digits first, a letter anywhere. */
  lemma HexTextIff(text: string, count: nat)
    ensures StartsWithHex(text, count) <==>
      && |text| >= count && (forall i | 0 <= i < count :: text[i] in "0123456789abcdef")
      && (text == "" || exists i :: 0 <= i < |text| && text[i] !in "0123456789")
  {
    forall i | 0 <= i < |text|
      ensures IsDigit(text[i]) <==> text[i] in "0123456789"
      ensures IsHexDigit(text[i]) <==> text[i] in "0123456789abcdef"
    {
      DigitIff(text[i]);
    }
  }

  /** A swap id is any text of 64 lower-case hex digits, whatever follows, that has a character which
      is no digit. */
  lemma SwapIdIff(id: string)
    ensures IsSwapId(id) <==>
      && |id| >= 64 && (forall i | 0 <= i < 64 :: id[i] in "0123456789abcdef")
      && exists i :: 0 <= i < |id| && id[i] !in "0123456789"
  {
    HexTextIff(id, 64);
  }

  /** Required texts: of digits only, one that is no row of zeros; of anything else, one that is no row of
      tabs, line ends, separators and spaces. */
  lemma GivenIff(text: string)
    ensures (forall ch | ch in text :: ch in "0123456789") ==> (Given(text) <==> exists ch :: ch in text && ch != '0')
    ensures (exists ch :: ch in text && ch !in "0123456789") ==>
      (Given(text) <==>
         exists ch :: ch in text && !(9 <= ch as int <= 13) && !(28 <= ch as int <= 32))
  {
    forall i | 0 <= i < |text| ensures IsDigit(text[i]) <==> text[i] in "0123456789" {
      DigitIff(text[i]);
    }
    assert (forall ch | ch in text :: ch in "0123456789") && text != "" ==> IsNumber(text);
    if Given(text) {
      var i :| 0 <= i < |text| && if IsNumber(text) then text[i] != '0' else !IsBlank(text[i]);
      assert text[i] in text;
    }
  }

  /** Any address passes exactly when its text starts with 70 hex digits and has a letter. */
  lemma FieldTextIff(c: Crypto, a: Address)
    ensures var text := AddressText.Text(c.settingDigest, a);
      IsAddressField(c, a) <==>
      && |text| >= 70 && (forall i | 0 <= i < 70 :: text[i] in "0123456789abcdef")
      && exists i :: 0 <= i < |text| && text[i] !in "0123456789"
  {
    HexTextIff(AddressText.Text(c.settingDigest, a), 70);
  }

  predicate IsHexDigest(digest: string) {
    |digest| == 64 && forall i | 0 <= i < 64 :: digest[i] in "0123456789abcdef"
  }

  /** Of the addresses that hold accounts, swaps and keys, all swap and key addresses pass, and of the
      others exactly the accounts with a letter in their hash: not the zero and genesis addresses. */
  lemma AddressFieldIff(c: Crypto, a: Address)
    requires a.AccountAddr? || a.SwapAddr? || a.KeyAddr? ==> IsHexDigest(a.digest)
    requires !a.SettingAddr? && !a.ConfigAddr? && !a.BlockAddr?
    ensures IsAddressField(c, a) <==>
      a.SwapAddr? || a.KeyAddr? || (a.AccountAddr? && exists i :: 0 <= i < 64 && a.digest[i] !in "0123456789")
  {
    hide StartsWithHex;
    if a.ZeroAddr? || a.GenesisAddr? {
      RowOfDigits(AddressText.Text(c.settingDigest, a), 70);
    } else {
      PrefixesAreHex();
      var prefix := if a.AccountAddr? then "112007" else if a.SwapAddr? then "78173b" else "a23be1";
      assert AddressText.Text(c.settingDigest, a) == prefix + a.digest;
      PrefixedDigest(prefix, a.digest);
      if a.SwapAddr? {
        DigitIff(prefix[5]);
      } else if a.KeyAddr? {
        DigitIff(prefix[0]);
      }
    }
  }

  lemma RowOfDigits(text: string, count: nat)
    requires text != "" && forall i | 0 <= i < |text| :: IsDigit(text[i])
    ensures !StartsWithHex(text, count)
  {
  }

  lemma PrefixedDigest(prefix: string, digest: string)
    requires |prefix| == 6 && IsHexDigest(digest) && forall i | 0 <= i < 6 :: prefix[i] in "0123456789abcdef"
    ensures StartsWithHex(prefix + digest, 70) <==>
      || (exists i :: 0 <= i < 6 && prefix[i] !in "0123456789")
      || (exists i :: 0 <= i < 64 && digest[i] !in "0123456789")
  {
    hide StartsWithHex;
    var text := prefix + digest;
    HexTextIff(text, 70);
    assert forall i | 0 <= i < 64 :: text[i + 6] == digest[i];
    assert forall i | 0 <= i < 70 :: text[i] == if i < 6 then prefix[i] else digest[i - 6];
  }

  lemma PrefixesAreHex()
    ensures forall i | 0 <= i < 6 :: AddressText.ACCOUNT_PREFIX[i] in "0123456789"
    ensures forall i | 0 <= i < 6 :: AddressText.ACCOUNT_PREFIX[i] in "0123456789abcdef"
    ensures forall i | 0 <= i < 6 :: AddressText.SWAP_PREFIX[i] in "0123456789abcdef"
    ensures forall i | 0 <= i < 6 :: AddressText.KEY_PREFIX[i] in "0123456789abcdef"
  {
    forall ch ensures (IsHexDigit(ch) <==> ch in "0123456789abcdef") && (IsDigit(ch) <==> ch in "0123456789") {
      DigitIff(ch);
    }
    assert forall i | 0 <= i < 6 :: IsDigit(AddressText.ACCOUNT_PREFIX[i]);
    assert forall i | 0 <= i < 6 :: IsHexDigit(AddressText.SWAP_PREFIX[i]);
    assert forall i | 0 <= i < 6 :: IsHexDigit(AddressText.KEY_PREFIX[i]);
  }

  lemma ZeroIsNoField(c: Crypto)
    ensures !IsAddressField(c, ZeroAddr)
  {
  }
}
