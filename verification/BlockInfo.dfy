/** Addresses of block records and the query for a window of blocks. */
module BlockInfo {
  import opened Wrappers

  const NAMESPACE := "00b10c"
  const BLOCK_INFO_NAMESPACE := NAMESPACE + "00"
  const CONFIG_ADDRESS := NAMESPACE + "01" + Zeros(62)
  const DIGITS := "0123456789abcdef"

  function Zeros(n: nat): (s: string)
    ensures |s| == n && forall i | 0 <= i < n :: s[i] == '0'
  {
    seq(n, _ => '0')
  }

  function Pow16(k: nat): nat {
    if k == 0 then 1 else 16 * Pow16(k - 1)
  }

  function HexDigits(n: nat): (s: string)
    ensures |s| >= 1
  {
    if n < 16 then [DIGITS[n]] else HexDigits(n / 16) + [DIGITS[n % 16]]
  }

  /** What is left of Python's `hex` after its first two characters, which for a negative number are "-0". */
  function Hex(n: int): string {
    if n < 0 then "x" + HexDigits(-n) else HexDigits(n)
  }

  function Zfill(s: string, width: nat): string {
    if |s| < width then Zeros(width - |s|) + s else s
  }

  function CreateBlockAddress(num: int): string {
    BLOCK_INFO_NAMESPACE + Zfill(Hex(num), 62)
  }

  function DigitValue(ch: char): nat {
    if 'a' <= ch <= 'f' then ch as nat - 'a' as nat + 10
    else if '0' <= ch <= '9' then ch as nat - '0' as nat
    else 0
  }

  function HexValue(s: string): nat {
    if s == [] then 0 else 16 * HexValue(s[..|s| - 1]) + DigitValue(s[|s| - 1])
  }

  /** The number a block address stands for. */
  function NumberOf(address: string): nat
    requires |address| >= 8
  {
    HexValue(address[8..])
  }

  lemma DigitRoundTrip(d: nat)
    requires d < 16
    ensures DigitValue(DIGITS[d]) == d
  {
    assert d == 0 || d == 1 || d == 2 || d == 3 || d == 4 || d == 5 || d == 6 || d == 7
        || d == 8 || d == 9 || d == 10 || d == 11 || d == 12 || d == 13 || d == 14 || d == 15;
  }

  lemma {:induction false} HexRoundTrip(n: nat)
    ensures HexValue(HexDigits(n)) == n
  {
    DigitRoundTrip(n % 16);
    if n < 16 {
      assert HexDigits(n)[..0] == [];
      assert HexValue([]) == 0;
    } else {
      HexRoundTrip(n / 16);
      assert HexDigits(n)[..|HexDigits(n)| - 1] == HexDigits(n / 16);
    }
  }

  lemma {:induction false} LeadingZeros(k: nat, s: string)
    ensures HexValue(Zeros(k) + s) == HexValue(s)
    decreases k + |s|
  {
    if s == [] {
      assert Zeros(k) + s == Zeros(k);
      if k > 0 {
        assert Zeros(k)[..k - 1] == Zeros(k - 1) + [];
        LeadingZeros(k - 1, []);
      }
    } else {
      var t := s[..|s| - 1];
      assert (Zeros(k) + s)[..k + |s| - 1] == Zeros(k) + t;
      LeadingZeros(k, t);
    }
  }

  /** The number can be read back from its address, so addresses of different blocks differ. */
  lemma AddressRoundTrip(n: nat)
    ensures |CreateBlockAddress(n)| >= 8 && NumberOf(CreateBlockAddress(n)) == n
  {
    HexRoundTrip(n);
    var s := HexDigits(n);
    assert CreateBlockAddress(n)[8..] == Zfill(s, 62);
    if |s| < 62 {
      LeadingZeros(62 - |s|, s);
    }
  }

  lemma AddressesDiffer(m: nat, n: nat)
    requires CreateBlockAddress(m) == CreateBlockAddress(n)
    ensures m == n
  {
    AddressRoundTrip(m);
    AddressRoundTrip(n);
  }

  /** No block address is the address of the block configuration. */
  lemma NeverTheConfigAddress(n: int)
    ensures CreateBlockAddress(n) != CONFIG_ADDRESS
  {
    assert CreateBlockAddress(n)[7] == '0';
    assert CONFIG_ADDRESS[7] == '1';
  }

  lemma {:induction false} DigitCount(n: nat, k: nat)
    requires k >= 1
    ensures |HexDigits(n)| <= k <==> n < Pow16(k)
  {
    if k == 1 {
      assert Pow16(1) == 16 * Pow16(0);
    } else if n >= 16 {
      DigitCount(n / 16, k - 1);
      assert n < 16 * Pow16(k - 1) <==> n / 16 < Pow16(k - 1);
    } else {
      DigitCount(0, k - 1);
    }
  }

  lemma OneDigitAddress(n: nat)
    requires n < 16
    ensures CreateBlockAddress(n) == "00b10c00" + seq(61, _ => '0') + ["0123456789abcdef"[n]]
  {
    assert Zfill(HexDigits(n), 62) == Zeros(61) + [DIGITS[n]];
  }

  /** Block addresses have the 70 characters of a state address exactly as long as the number has at
      most 62 hex digits. */
  lemma AddressLength(n: nat)
    ensures |CreateBlockAddress(n)| == 70 <==> n < Pow16(62)
  {
    DigitCount(n, 62);
  }

  /** The address formed from a negative number is no block's address. */
  lemma NegativeHasNoBlock(m: int, n: nat)
    requires m < 0
    ensures CreateBlockAddress(m) != CreateBlockAddress(n)
  {
    var x, s := Hex(m), CreateBlockAddress(m);
    assert s[|s| - |x|] == x[0] == 'x';
    OnlyHex(n);
  }

  lemma OnlyHex(n: nat)
    ensures 'x' !in CreateBlockAddress(n)
  {
    OnlyDigits(n);
    assert 'x' !in DIGITS;
  }

  lemma {:induction false} OnlyDigits(n: nat)
    ensures forall ch | ch in HexDigits(n) :: ch in DIGITS
  {
    if n >= 16 {
      OnlyDigits(n / 16);
    }
  }

  datatype Info = Info(blockNum: nat, timestamp: nat)

  datatype Config = Config(latest: nat, oldest: nat)

  /** What the caller gets to see of a block; blocks are counted from one. */
  datatype Row = Row(blockNumber: nat, timestamp: nat)

  function Interpret(info: Info): Row {
    Row(info.blockNum + 1, info.timestamp)
  }

  /** The half-open range of block numbers a query covers, when it can be answered at all. */
  function Window(start: int, limit: int, config: Option<Config>): Option<(int, int)> {
    if (start == 0 || limit == 0) && config.None? then None
    else
      var hi := if start == 0 then config.value.latest + 1 else start;
      var wanted := if limit == 0 then hi - config.value.oldest + 1 else limit;
      Some((hi - (if wanted > hi then hi else wanted), hi))
  }

  /** What a lookup of one address comes to: a block, the one error that is skipped, or any other error. */
  datatype Answer = Found(info: Info) | NotFound | Refused

  /** The blocks found in a range, newest first. */
  function Listing(ask: string -> Answer, lo: int, hi: int): seq<Row>
    decreases hi - lo
  {
    if hi <= lo then []
    else
      var answer := ask(CreateBlockAddress(hi - 1));
      (if answer.Found? then [Interpret(answer.info)] else []) + Listing(ask, lo, hi - 1)
  }

  predicate AllAnswered(ask: string -> Answer, lo: int, hi: int) {
    forall n | lo <= n < hi :: !ask(CreateBlockAddress(n)).Refused?
  }

  function Reversed<T>(xs: seq<T>): seq<T> {
    if xs == [] then [] else [xs[|xs| - 1]] + Reversed(xs[..|xs| - 1])
  }

  /** The listing of the window; nothing when a lookup fails, other than by a missing block. */
  function Query(start: int, limit: int, config: Option<Config>, ask: string -> Answer): Option<seq<Row>> {
    var w := Window(start, limit, config);
    if w.None? then Some([])
    else if AllAnswered(ask, w.value.0, w.value.1) then Some(Listing(ask, w.value.0, w.value.1))
    else None
  }

  method GetBlocksInfo(start: int, limit: int, config: Option<Config>,
                       ask: string -> Answer) returns (rows: Option<seq<Row>>)
    ensures rows == Query(start, limit, config, ask)
  {
    hide CreateBlockAddress;
    var found := [];
    var first, count := start, limit;
    if !(start != 0 && limit != 0) {
      if config.None? {
        return Some([]);
      }
      if first == 0 {
        first := config.value.latest + 1;
      }
      if count == 0 {
        count := first - config.value.oldest + 1;
      }
    }
    if count - first > 0 {
      count := first;
    }
    var i := first - count;
    while i < first
      invariant first - count <= i
      invariant i <= first || i == first - count
      invariant AllAnswered(ask, first - count, i)
      invariant Reversed(found) == Listing(ask, first - count, i)
      decreases first - i
    {
      var answer := ask(CreateBlockAddress(i));
      if answer.Refused? {
        return None;
      }
      if answer.Found? {
        ghost var before := found;
        found := found + [Interpret(answer.info)];
        assert found[..|found| - 1] == before;
      }
      i := i + 1;
    }
    var list := ReverseList(found);
    rows := Some(list);
  }

  method ReverseList(xs: seq<Row>) returns (r: seq<Row>)
    ensures r == Reversed(xs)
  {
    r := [];
    for i := 0 to |xs|
      invariant r == Reversed(xs[..i])
    {
      r := [xs[i]] + r;
      assert xs[..i + 1][..i] == xs[..i];
    }
    assert xs[..|xs|] == xs;
  }

  /** Block records stand at the address of their number. */
  ghost predicate Stored(ask: string -> Answer) {
    forall a | ask(a).Found? :: a == CreateBlockAddress(ask(a).info.blockNum)
  }

  predicate NewestFirst(rows: seq<Row>) {
    forall i, j | 0 <= i < j < |rows| :: rows[i].blockNumber > rows[j].blockNumber
  }

  /** A listing holds exactly the stored blocks of its range, each once, newest first. */
  lemma {:induction false} ListingIsExact(ask: string -> Answer, lo: int, hi: int)
    requires Stored(ask)
    ensures NewestFirst(Listing(ask, lo, hi))
    ensures forall row :: row in Listing(ask, lo, hi) <==>
      exists a :: ask(a).Found? && lo <= ask(a).info.blockNum < hi && row == Interpret(ask(a).info)
    decreases hi - lo
  {
    hide CreateBlockAddress;
    if lo < hi {
      var rest, a := Listing(ask, lo, hi - 1), CreateBlockAddress(hi - 1);
      ListingIsExact(ask, lo, hi - 1);
      forall x | ask(x).Found? && ask(x).info.blockNum == hi - 1 ensures x == a {
        assert x == CreateBlockAddress(ask(x).info.blockNum);
      }
      if ask(a).Found? {
        TopBlock(ask, hi - 1);
        assert Listing(ask, lo, hi) == [Interpret(ask(a).info)] + rest;
        assert forall i | 0 <= i < |rest| :: rest[i] in rest;
      } else {
        assert Listing(ask, lo, hi) == rest;
      }
    }
  }

  lemma TopBlock(ask: string -> Answer, n: int)
    requires Stored(ask) && ask(CreateBlockAddress(n)).Found?
    ensures ask(CreateBlockAddress(n)).info.blockNum == n
  {
    var m := ask(CreateBlockAddress(n)).info.blockNum;
    assert CreateBlockAddress(n) == CreateBlockAddress(m);
    if n < 0 {
      NegativeHasNoBlock(n, m);
    } else {
      AddressesDiffer(n, m);
    }
  }

  function Max0(n: int): nat {
    if n < 0 then 0 else n
  }

  /** The answer is the stored blocks with these numbers, each once, newest first, counted from one;
      there is none if and only if a lookup of one of these numbers is refused. */
  ghost predicate AnswersWith(answer: Option<seq<Row>>, ask: string -> Answer, lo: int, hi: int) {
    && (answer.None? <==> exists n :: lo <= n < hi && ask(CreateBlockAddress(n)).Refused?)
    && (answer.Some? ==>
          && NewestFirst(answer.value)
          && forall row :: row in answer.value <==>
               exists a :: ask(a).Found? && lo <= ask(a).info.blockNum < hi
                 && row == Row(ask(a).info.blockNum + 1, ask(a).info.timestamp))
  }

  lemma ListingAnswers(start: int, limit: int, config: Option<Config>, ask: string -> Answer, lo: int, hi: int)
    requires Stored(ask) && Window(start, limit, config) == Some((lo, hi))
    ensures AnswersWith(Query(start, limit, config, ask), ask, lo, hi)
  {
    hide CreateBlockAddress, Window;
    ListingIsExact(ask, lo, hi);
    hide Listing, Stored, NewestFirst;
  }

  /** What the query answers. A start and a limit ask for that many blocks below the start, as far as there
      are such numbers. Without a start it is the block after the latest, without a limit everything
      from the block before the oldest on. When the configuration for this is missing, the answer is empty. */
  lemma QueryIsExact(start: nat, limit: nat, config: Option<Config>, ask: string -> Answer)
    requires Stored(ask)
    ensures start > 0 && limit > 0 ==>
      AnswersWith(Query(start, limit, config, ask), ask, Max0(start - limit), start)
    ensures start == 0 && limit > 0 && config.Some? ==>
      var hi := config.value.latest + 1;
      AnswersWith(Query(start, limit, config, ask), ask, Max0(hi - limit), hi)
    ensures start > 0 && limit == 0 && config.Some? ==>
      AnswersWith(Query(start, limit, config, ask), ask, Max0(config.value.oldest - 1), start)
    ensures start == 0 && limit == 0 && config.Some? ==>
      AnswersWith(Query(start, limit, config, ask), ask, Max0(config.value.oldest - 1), config.value.latest + 1)
    ensures (start == 0 || limit == 0) && config.None? ==> Query(start, limit, config, ask) == Some([])
  {
    hide AnswersWith, Query, Stored;
    var w := Window(start, limit, config);
    if w.Some? {
      ListingAnswers(start, limit, config, ask, w.value.0, w.value.1);
    } else {
      assert Query(start, limit, config, ask) == Some([]) by {
        NoConfiguration(start, limit, config, ask);
      }
    }
  }

  lemma NoConfiguration(start: int, limit: int, config: Option<Config>, ask: string -> Answer)
    requires Window(start, limit, config).None?
    ensures Query(start, limit, config, ask) == Some([])
  {
  }

  /** An address the node takes: 70 hex digits. */
  ghost predicate IsStateAddress(a: string) {
    |a| == 70 && forall i | 0 <= i < 70 :: a[i] in DIGITS
  }

  lemma PrefixDigits()
    ensures '0' in DIGITS && forall i | 0 <= i < 8 :: BLOCK_INFO_NAMESPACE[i] in DIGITS
  {
    assert DIGITS[0] == '0' && DIGITS[1] == '1' && DIGITS[11] == 'b' && DIGITS[12] == 'c';
  }

  lemma WellFormedIff(n: int)
    ensures IsStateAddress(CreateBlockAddress(n)) <==> 0 <= n < Pow16(62)
  {
    var x, a := Hex(n), CreateBlockAddress(n);
    if n < 0 {
      assert a[|a| - |x|] == 'x';
    } else {
      OnlyDigits(n);
      PrefixDigits();
      AddressLength(n);
      hide Pow16, HexDigits;
    }
  }

  /** Against a node that refuses exactly what is no state address, a query, of any integers, fails if and
      only if it reaches below zero or beyond the last number with 62 hex digits. */
  lemma QueryFailsIff(start: int, limit: int, config: Option<Config>, ask: string -> Answer)
    requires config.Some? || (start != 0 && limit != 0)
    requires forall a :: ask(a).Refused? <==> !IsStateAddress(a)
    ensures Query(start, limit, config, ask).None? <==>
      var hi := if start == 0 then config.value.latest + 1 else start;
      var lo := if limit == 0 then Max0(config.value.oldest - 1) else if limit > hi then 0 else hi - limit;
      lo < hi && (lo < 0 || hi > Pow16(62))
  {
    hide CreateBlockAddress, IsStateAddress, Pow16;
    var (lo, hi) := Window(start, limit, config).value;
    forall n | lo <= n < hi ensures ask(CreateBlockAddress(n)).Refused? <==> !(0 <= n < Pow16(62)) {
      WellFormedIff(n);
    }
    if lo < hi && (lo < 0 || hi > Pow16(62)) {
      var n := if lo < 0 then lo else hi - 1;
      assert ask(CreateBlockAddress(n)).Refused?;
    }
  }
}
