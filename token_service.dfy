/** The arithmetic in `app/lib/token-service.ts`: the fields `getTokenInfo` reads from a
    mint account's raw data, and the base-unit amount `createToken` mints. The account
    lookup is an input; key parsing and the chain calls are not modelled. */
module TokenService {
  import opened Options

  newtype byte = b: int | 0 <= b < 256

  function Pow(base: nat, e: nat): (p: nat)
    ensures base > 0 ==> p > 0
  {
    if e == 0 then 1 else base * Pow(base, e - 1)
  }

  /** The unsigned little-endian value of `bs`. */
  function LittleEndian(bs: seq<byte>): (v: nat)
    // the first byte is the lowest base-256 digit, the other bytes make up the rest
    ensures bs != [] ==> v % 256 == bs[0] as nat && v / 256 == LittleEndian(bs[1..])
    decreases |bs|
  {
    if bs == [] then 0 else bs[0] as nat + 256 * LittleEndian(bs[1..])
  }

  /** Read from the other end: the last byte is the most significant, worth 256^(n - 1). */
  lemma {:induction false} LittleEndianLast(bs: seq<byte>)
    requires bs != []
    ensures LittleEndian(bs) == LittleEndian(bs[..|bs| - 1]) + bs[|bs| - 1] as nat * Pow(256, |bs| - 1)
    decreases |bs|
  {
    var rest := bs[1..];
    if rest == [] {
      assert bs[..|bs| - 1] == [];
    } else {
      LittleEndianLast(rest);
      var init := bs[..|bs| - 1];
      assert rest[|rest| - 1] == bs[|bs| - 1];
      assert init[1..] == rest[..|rest| - 1];
      ShiftDigit(LittleEndian(rest[..|rest| - 1]), bs[|bs| - 1] as int, Pow(256, |rest| - 1));
    }
  }

  /** Shifting a number up one base-256 digit shifts each of its parts. */
  lemma ShiftDigit(lower: int, top: int, p: int)
    ensures 256 * (lower + top * p) == 256 * lower + top * (256 * p)
  {
  }

  /** The `n`-byte little-endian encoding of `v`. */
  function EncodeLittleEndian(v: nat, n: nat): (bs: seq<byte>)
    ensures |bs| == n
  {
    if n == 0 then [] else [(v % 256) as byte] + EncodeLittleEndian(v / 256, n - 1)
  }

  /** An `n`-byte little-endian field holds a value below 256^n. */
  lemma {:induction false} LittleEndianBound(bs: seq<byte>)
    ensures LittleEndian(bs) < Pow(256, |bs|)
    decreases |bs|
  {
    if bs != [] {
      LittleEndianBound(bs[1..]);
    }
  }

  /** Decoding an encoding gives the value back. */
  lemma {:induction false} DecodeEncode(v: nat, n: nat)
    requires v < Pow(256, n)
    ensures LittleEndian(EncodeLittleEndian(v, n)) == v
    decreases n
  {
    if n > 0 {
      DecodeEncode(v / 256, n - 1);
      assert EncodeLittleEndian(v, n)[1..] == EncodeLittleEndian(v / 256, n - 1);
    }
  }

  /** Encoding a decoded field gives the bytes back. */
  lemma {:induction false} EncodeDecode(bs: seq<byte>)
    ensures EncodeLittleEndian(LittleEndian(bs), |bs|) == bs
    decreases |bs|
  {
    if bs != [] {
      var v := LittleEndian(bs);
      assert v % 256 == bs[0] as nat && v / 256 == LittleEndian(bs[1..]);
      EncodeDecode(bs[1..]);
    }
  }

  /** 2^64: one more than the largest unsigned 64-bit value. */
  const U64Limit: nat := 0x1_0000_0000_0000_0000

  const SupplyOffset: nat := 36
  const DecimalsOffset: nat := 44
  const InitializedOffset: nat := 45
  const FreezeAuthorityOffset: nat := 46

  datatype MintInfo = MintInfo(
    mint: string,
    supply: nat,
    decimals: nat,
    isInitialized: bool,
    freezeAuthority: bool)

  /** `Token not found`, or a read past the end of the data at the given offset. */
  datatype TokenInfoError = TokenNotFound | OutOfRange(offset: nat)

  datatype TokenInfoResult = Info(info: MintInfo) | Failed(error: TokenInfoError)

  /** `getTokenInfo(mintAddress)` given what the account lookup returned (`None` for no
      account). The reads run in the order the result object lists them, so the error
      names the first one that does not fit. */
  function GetTokenInfo(mintAddress: string, account: Option<seq<byte>>): (r: TokenInfoResult)
    ensures account.None? <==> r == Failed(TokenNotFound)
    ensures r.Info? <==> account.Some? && |account.value| >= 47
    ensures r.Failed? && account.Some? ==>
              r.error == OutOfRange(if |account.value| < 44 then SupplyOffset else |account.value|)
    ensures r.Info? ==>
              var data, info := account.value, r.info;
              && info.mint == mintAddress
              && info.supply == LittleEndian(data[36..44])
              && info.supply < U64Limit
              && info.decimals == data[44] as nat && info.decimals <= 255
              && (info.isInitialized <==> data[45] == 1)
              && (info.freezeAuthority <==> data[46] == 1)
  {
    match account
    case None => Failed(TokenNotFound)
    case Some(data) =>
      if |data| < SupplyOffset + 8 then Failed(OutOfRange(SupplyOffset))
      else if |data| <= DecimalsOffset then Failed(OutOfRange(DecimalsOffset))
      else if |data| <= InitializedOffset then Failed(OutOfRange(InitializedOffset))
      else if |data| <= FreezeAuthorityOffset then Failed(OutOfRange(FreezeAuthorityOffset))
      else
        var field := data[SupplyOffset..SupplyOffset + 8];
        LittleEndianBound(field);
        assert Pow(256, 8) == U64Limit;
        Info(MintInfo(mintAddress, LittleEndian(field), data[DecimalsOffset] as nat,
                      data[InitializedOffset] == 1, data[FreezeAuthorityOffset] == 1))
  }

  /** The amount `createToken` mints: `initialSupply * 10^decimals` base units. */
  function MintAmount(initialSupply: nat, decimals: nat): (amount: nat)
    ensures amount / Pow(10, decimals) == initialSupply
    ensures amount % Pow(10, decimals) == 0
  {
    var unit := Pow(10, decimals);
    ScaleExact(initialSupply, unit);
    initialSupply * unit
  }

  lemma ScaleExact(a: nat, unit: nat)
    requires unit > 0
    ensures (a * unit) / unit == a && (a * unit) % unit == 0
  {
    var q, r := (a * unit) / unit, (a * unit) % unit;
    assert (a - q) * unit == r;
    if a - q >= 1 {
      // r = (a - q) * unit would reach unit
      assert false;
    } else if a - q <= -1 {
      // r = (a - q) * unit would be negative
      assert false;
    }
  }
}
