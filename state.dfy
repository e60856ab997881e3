/** The `Escrow` account record and its fixed 105-byte layout
    (`impl Pack for Escrow` in src/state.rs). */
module EscrowState {
  import opened Solana

  /** `Pack::LEN`. */
  const LEN: nat := 105

  /** Where each field starts in the packed record. */
  const IS_INITIALIZED_AT: nat := 0
  const INITIALIZER_AT: nat := 1
  const TEMP_TOKEN_ACCOUNT_AT: nat := 33
  const RECEIVE_ACCOUNT_AT: nat := 65
  const EXPECTED_AMOUNT_AT: nat := 97

  const AMOUNT_BYTES: nat := 8

  datatype Escrow = Escrow(
    isInitialized: bool,
    initializerPubkey: Pubkey,
    tempTokenAccountPubkey: Pubkey,
    initializerTokenToReceiveAccountPubkey: Pubkey,
    expectedAmount: U64)
  {
    /** `IsInitialized::is_initialized`: what the packed flag byte says. */
    predicate IsInitialized()
      ensures IsInitialized() <==> Encode(this)[IS_INITIALIZED_AT] == 1
      ensures !IsInitialized() <==> Encode(this)[IS_INITIALIZED_AT] == 0
    {
      isInitialized
    }
  }

  // ---------------------------------------------------------------
  // Little-endian integers (`u64::to_le_bytes`, `u64::from_le_bytes`)
  // ---------------------------------------------------------------

  function Pow256(n: nat): (r: nat)
    ensures r > 0
  {
    if n == 0 then 1 else 256 * Pow256(n - 1)
  }

  /** The `n` low-order bytes of `x`, least significant first. */
  function ToLeBytes(x: nat, n: nat): (r: seq<Byte>)
    ensures |r| == n
  {
    if n == 0 then [] else [(x % 256) as Byte] + ToLeBytes(x / 256, n - 1)
  }

  /** The number whose little-endian digits in base 256 are `s`. */
  function FromLeBytes(s: seq<Byte>): (r: nat)
    ensures r < Pow256(|s|)
  {
    if s == [] then 0 else s[0] as nat + 256 * FromLeBytes(s[1..])
  }

  /** Splitting off the low byte of `x`. */
  lemma DivMod256(x: nat, n: nat)
    requires x < 256 * Pow256(n)
    ensures x == x % 256 + 256 * (x / 256) && x / 256 < Pow256(n)
  {
  }

  lemma {:induction false} FromLeBytesOfToLeBytes(x: nat, n: nat)
    requires x < Pow256(n)
    ensures FromLeBytes(ToLeBytes(x, n)) == x
  {
    if n > 0 {
      var lo, hi := x % 256, x / 256;
      DivMod256(x, n - 1);
      FromLeBytesOfToLeBytes(hi, n - 1);
      var s := ToLeBytes(x, n);
      assert s == [lo as Byte] + ToLeBytes(hi, n - 1);
      assert s[1..] == ToLeBytes(hi, n - 1);
      calc {
        FromLeBytes(s);
        s[0] as nat + 256 * FromLeBytes(s[1..]);
        lo + 256 * hi;
        x;
      }
    }
  }

  lemma {:induction false} ToLeBytesOfFromLeBytes(s: seq<Byte>)
    ensures ToLeBytes(FromLeBytes(s), |s|) == s
  {
    if s != [] {
      var x := FromLeBytes(s);
      var rest := FromLeBytes(s[1..]);
      assert x == s[0] as nat + 256 * rest;
      assert x % 256 == s[0] as nat && x / 256 == rest by {
        LowByteOf(s[0] as nat, rest);
      }
      ToLeBytesOfFromLeBytes(s[1..]);
      assert ToLeBytes(x, |s|) == [s[0]] + s[1..];
    }
  }

  lemma LowByteOf(lo: nat, hi: nat)
    requires lo < 256
    ensures (lo + 256 * hi) % 256 == lo && (lo + 256 * hi) / 256 == hi
  {
  }

  lemma EightBytesFitU64()
    ensures Pow256(AMOUNT_BYTES) == U64_LIMIT
  {
  }

  // ---------------------------------------------------------------
  // The layout
  // ---------------------------------------------------------------

  /** The 105 bytes `pack_into_slice` writes for `e`: the flag as `bool as u8`,
      the three keys, then the amount as `to_le_bytes`. */
  function Encode(e: Escrow): (r: seq<Byte>)
    ensures |r| == LEN == 1 + 3 * PUBKEY_BYTES + AMOUNT_BYTES
  {
    [if e.isInitialized then 1 else 0]
    + e.initializerPubkey
    + e.tempTokenAccountPubkey
    + e.initializerTokenToReceiveAccountPubkey
    + ToLeBytes(e.expectedAmount, AMOUNT_BYTES)
  }

  /** `unpack_from_slice`: reads the first 105 bytes of `src` (the `array_ref!`
      would panic on a shorter slice). Only the flag byte can make it fail. */
  function UnpackFromSlice(src: seq<Byte>): (r: Result<Escrow>)
    requires |src| >= LEN
    ensures r.Err? <==> src[IS_INITIALIZED_AT] != 0 && src[IS_INITIALIZED_AT] != 1
    ensures r.Err? ==> r.error == InvalidAccountData
    ensures r.Ok? ==> r.value.isInitialized == (src[IS_INITIALIZED_AT] == 1)
  {
    var flag := src[IS_INITIALIZED_AT];
    if flag != 0 && flag != 1 then
      Err(InvalidAccountData)
    else
      EightBytesFitU64();
      Ok(Escrow(
           flag == 1,
           src[INITIALIZER_AT..TEMP_TOKEN_ACCOUNT_AT],
           src[TEMP_TOKEN_ACCOUNT_AT..RECEIVE_ACCOUNT_AT],
           src[RECEIVE_ACCOUNT_AT..EXPECTED_AMOUNT_AT],
           FromLeBytes(src[EXPECTED_AMOUNT_AT..LEN])))
  }

  /** `Pack::unpack_unchecked` of the runtime library: a slice of any length other
      than `LEN` is refused before `unpack_from_slice` runs. */
  function UnpackUnchecked(input: seq<Byte>): (r: Result<Escrow>)
    ensures |input| != LEN ==> r == Err(InvalidAccountData)
    ensures |input| == LEN ==> r == UnpackFromSlice(input)
  {
    if |input| != LEN then Err(InvalidAccountData) else UnpackFromSlice(input)
  }

  /** Each field sits at its own offset, and the flag byte is 0 or 1. */
  lemma EncodeLayout(e: Escrow)
    ensures Encode(e)[IS_INITIALIZED_AT] == (if e.isInitialized then 1 else 0)
    ensures Encode(e)[IS_INITIALIZED_AT] == 0 || Encode(e)[IS_INITIALIZED_AT] == 1
    ensures Encode(e)[INITIALIZER_AT..TEMP_TOKEN_ACCOUNT_AT] == e.initializerPubkey
    ensures Encode(e)[TEMP_TOKEN_ACCOUNT_AT..RECEIVE_ACCOUNT_AT] == e.tempTokenAccountPubkey
    ensures Encode(e)[RECEIVE_ACCOUNT_AT..EXPECTED_AMOUNT_AT] == e.initializerTokenToReceiveAccountPubkey
    ensures Encode(e)[EXPECTED_AMOUNT_AT..LEN] == ToLeBytes(e.expectedAmount, AMOUNT_BYTES)
  {
    var s := Encode(e);
    var a := [if e.isInitialized then 1 else 0] + e.initializerPubkey;
    var b := a + e.tempTokenAccountPubkey;
    var c := b + e.initializerTokenToReceiveAccountPubkey;
    assert s == c + ToLeBytes(e.expectedAmount, AMOUNT_BYTES);
    assert s[..EXPECTED_AMOUNT_AT] == c;
    assert c[..RECEIVE_ACCOUNT_AT] == b;
    assert b[..TEMP_TOKEN_ACCOUNT_AT] == a;
  }

  /** `is_initialized()` of a decoded record is what its flag byte says. */
  lemma IsInitializedIsFlagByte(src: seq<Byte>)
    requires |src| == LEN && UnpackUnchecked(src).Ok?
    ensures UnpackUnchecked(src).value.IsInitialized() <==> src[IS_INITIALIZED_AT] == 1
    ensures !UnpackUnchecked(src).value.IsInitialized() <==> src[IS_INITIALIZED_AT] == 0
  {
  }

  /** Decoding what was encoded gives back the record. */
  lemma RoundTrip(e: Escrow)
    ensures UnpackFromSlice(Encode(e)) == Ok(e)
    ensures UnpackUnchecked(Encode(e)) == Ok(e)
  {
    EncodeLayout(e);
    EightBytesFitU64();
    FromLeBytesOfToLeBytes(e.expectedAmount, AMOUNT_BYTES);
  }

  /** Encoding what was decoded gives back the 105 bytes. */
  lemma EncodeOfDecode(src: seq<Byte>)
    requires |src| == LEN
    requires UnpackFromSlice(src).Ok?
    ensures Encode(UnpackFromSlice(src).value) == src
  {
    var e := UnpackFromSlice(src).value;
    var s := Encode(e);
    EncodeLayout(e);
    ToLeBytesOfFromLeBytes(src[EXPECTED_AMOUNT_AT..LEN]);
    assert s[..INITIALIZER_AT] == src[..INITIALIZER_AT];
    PrefixGrow(s, src, INITIALIZER_AT, TEMP_TOKEN_ACCOUNT_AT);
    PrefixGrow(s, src, TEMP_TOKEN_ACCOUNT_AT, RECEIVE_ACCOUNT_AT);
    PrefixGrow(s, src, RECEIVE_ACCOUNT_AT, EXPECTED_AMOUNT_AT);
    PrefixGrow(s, src, EXPECTED_AMOUNT_AT, LEN);
    assert s == s[..LEN] && src == src[..LEN];
  }

  /** Two sequences that agree on `[..i]` and on `[i..j]` agree on `[..j]`. */
  lemma PrefixGrow(a: seq<Byte>, b: seq<Byte>, i: nat, j: nat)
    requires i <= j <= |a| && j <= |b|
    requires a[..i] == b[..i] && a[i..j] == b[i..j]
    ensures a[..j] == b[..j]
  {
  }

  /** Decoding looks at the first 105 bytes only. */
  lemma UnpackReadsPrefix(src: seq<Byte>)
    requires |src| >= LEN
    ensures UnpackFromSlice(src) == UnpackFromSlice(src[..LEN])
  {
    var p := src[..LEN];
    assert p[INITIALIZER_AT..TEMP_TOKEN_ACCOUNT_AT] == src[INITIALIZER_AT..TEMP_TOKEN_ACCOUNT_AT];
    assert p[TEMP_TOKEN_ACCOUNT_AT..RECEIVE_ACCOUNT_AT] == src[TEMP_TOKEN_ACCOUNT_AT..RECEIVE_ACCOUNT_AT];
    assert p[RECEIVE_ACCOUNT_AT..EXPECTED_AMOUNT_AT] == src[RECEIVE_ACCOUNT_AT..EXPECTED_AMOUNT_AT];
    assert p[EXPECTED_AMOUNT_AT..LEN] == src[EXPECTED_AMOUNT_AT..LEN];
  }

  /** Every pattern of the 104 key and amount bytes decodes, under either valid flag. */
  lemma AnyFieldBytesDecode(flag: bool, k1: Pubkey, k2: Pubkey, k3: Pubkey, amount: seq<Byte>)
    requires |amount| == AMOUNT_BYTES
    ensures var src := [if flag then 1 else 0] + k1 + k2 + k3 + amount;
            |src| == LEN &&
            UnpackFromSlice(src) == Ok(Escrow(flag, k1, k2, k3, FromLeBytes(amount)))
  {
    var src := [if flag then 1 else 0] + k1 + k2 + k3 + amount;
    EightBytesFitU64();
    var e := Escrow(flag, k1, k2, k3, FromLeBytes(amount));
    ToLeBytesOfFromLeBytes(amount);
    assert Encode(e) == src;
    RoundTrip(e);
  }

  /** A freshly allocated, all-zero account decodes as an uninitialized record. */
  lemma ZeroedAccountIsUninitialized()
    ensures var zero := seq(PUBKEY_BYTES, _ => 0 as Byte);
            UnpackUnchecked(seq(LEN, _ => 0 as Byte)) == Ok(Escrow(false, zero, zero, zero, 0))
  {
    var zero := seq(PUBKEY_BYTES, _ => 0 as Byte);
    var src := seq(LEN, _ => 0 as Byte);
    var amount := src[EXPECTED_AMOUNT_AT..LEN];
    assert src[INITIALIZER_AT..TEMP_TOKEN_ACCOUNT_AT] == zero;
    assert src[TEMP_TOKEN_ACCOUNT_AT..RECEIVE_ACCOUNT_AT] == zero;
    assert src[RECEIVE_ACCOUNT_AT..EXPECTED_AMOUNT_AT] == zero;
    assert amount == ToLeBytes(0, AMOUNT_BYTES);
    FromLeBytesOfToLeBytes(0, AMOUNT_BYTES);
  }

  // ---------------------------------------------------------------
  // Writing the record into an account's data buffer
  // ---------------------------------------------------------------

  /** `copy_from_slice` into the window `dst[offset..offset + |src|]`. */
  method CopyFromSlice(dst: array<Byte>, offset: nat, src: seq<Byte>)
    requires offset + |src| <= dst.Length
    modifies dst
    ensures dst[offset..offset + |src|] == src
    ensures forall i :: 0 <= i < dst.Length && !(offset <= i < offset + |src|) ==> dst[i] == old(dst[i])
  {
    for k := 0 to |src|
      invariant forall j :: 0 <= j < k ==> dst[offset + j] == src[j]
      invariant forall i :: 0 <= i < dst.Length && !(offset <= i < offset + k) ==> dst[i] == old(dst[i])
    {
      dst[offset + k] := src[k];
    }
  }

  /** `pack_into_slice`: writes the record over `dst[0..105]` and leaves the rest alone
      (the `array_mut_ref!` would panic on a shorter buffer). */
  method PackIntoSlice(e: Escrow, dst: array<Byte>)
    requires dst.Length >= LEN
    modifies dst
    ensures dst[..LEN] == Encode(e)
    ensures dst[LEN..] == old(dst[LEN..])
  {
    var encoded := Encode(e);
    EncodeLayout(e);
    dst[IS_INITIALIZED_AT] := if e.isInitialized then 1 else 0;
    assert dst[..INITIALIZER_AT] == encoded[..INITIALIZER_AT];
    CopyFromSlice(dst, INITIALIZER_AT, e.initializerPubkey);
    PrefixGrow(dst[..], encoded, INITIALIZER_AT, TEMP_TOKEN_ACCOUNT_AT);
    CopyFromSlice(dst, TEMP_TOKEN_ACCOUNT_AT, e.tempTokenAccountPubkey);
    PrefixGrow(dst[..], encoded, TEMP_TOKEN_ACCOUNT_AT, RECEIVE_ACCOUNT_AT);
    CopyFromSlice(dst, RECEIVE_ACCOUNT_AT, e.initializerTokenToReceiveAccountPubkey);
    PrefixGrow(dst[..], encoded, RECEIVE_ACCOUNT_AT, EXPECTED_AMOUNT_AT);
    CopyFromSlice(dst, EXPECTED_AMOUNT_AT, ToLeBytes(e.expectedAmount, AMOUNT_BYTES));
    PrefixGrow(dst[..], encoded, EXPECTED_AMOUNT_AT, LEN);
    assert encoded == encoded[..LEN];
  }

  /** What `Pack::pack` leaves in a buffer holding `dst`: a buffer whose length is
      not `LEN` is refused, any other is overwritten with the encoding. */
  function Packed(e: Escrow, dst: seq<Byte>): (r: Result<seq<Byte>>)
    ensures r.Err? <==> |dst| != LEN
    ensures r.Err? ==> r.error == InvalidAccountData
    ensures r.Ok? ==> |r.value| == |dst| && UnpackUnchecked(r.value) == Ok(e)
  {
    if |dst| != LEN then Err(InvalidAccountData)
    else RoundTrip(e); Ok(Encode(e))
  }

  /** `Pack::pack` of the runtime library: checks the length, then `pack_into_slice`. */
  method Pack(e: Escrow, dst: array<Byte>) returns (r: Result<()>)
    modifies dst
    ensures r.Ok? <==> Packed(e, old(dst[..])).Ok?
    ensures r.Err? ==> r.error == Packed(e, old(dst[..])).error && dst[..] == old(dst[..])
    ensures r.Ok? ==> dst[..] == Packed(e, old(dst[..])).value
  {
    if dst.Length != LEN {
      return Err(InvalidAccountData);
    }
    PackIntoSlice(e, dst);
    assert dst[..] == dst[..LEN];
    r := Ok(());
  }
}
