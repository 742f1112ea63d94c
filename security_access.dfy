/**
 * The seed-to-key routine of a UDS Security Access (service 0x27) DLL: the
 * ECU's seed is authenticated with AES-CMAC under a secret key chosen by the
 * requested security level, and the 16-byte MAC is the key sent back.
 * AES-CMAC itself is a parameter of the model.
 */
module SecurityAccess {
  import opened Wrappers

  /** C `unsigned int`. */
  newtype u32 = x: int | 0 <= x < 0x1_0000_0000

  /** A 16-byte AES key or CMAC value. */
  type Block = s: seq<bv8> | |s| == 16 witness [0, 0, 0, 0, 0, 0, 0, 0, 0, 0, 0, 0, 0, 0, 0, 0]

  /**
   * `calculate_aes_cmac`: the MAC of a message under a 16-byte key, or `None`
   * where the call reports failure.
   */
  type CmacFn = (Block, seq<bv8>) -> Option<Block>

  /** Return codes of `GenerateKeyEx`. */
  const ResultOk: int := 0
  const ResultError: int := 2

  /** The CMAC key of security level 1. */
  const KeyLevel1: Block := [0xFF, 0x00, 0xFF, 0x00, 0xFF, 0x00, 0xFF, 0x00,
                             0xFF, 0x00, 0xFF, 0x00, 0xFF, 0x00, 0xFF, 0x00]

  /** The CMAC key of security level 3. */
  const KeyLevel2: Block := [0x00, 0xAA, 0x00, 0xAA, 0x00, 0xAA, 0x00, 0xAA,
                             0x00, 0xAA, 0x00, 0xAA, 0x00, 0xAA, 0x00, 0xAA]

  /** The argument check: both buffers given, a non-empty seed, room for 16 key bytes. */
  predicate ArgumentsValid(seedPresent: bool, seedSize: u32, keyBufferPresent: bool, maxKeySize: u32) {
    seedPresent && keyBufferPresent && seedSize != 0 && maxKeySize >= 16
  }

  /** The secret key of a security level; only levels 1 and 3 have one. */
  function SelectKey(level: u32): (key: Option<Block>)
    ensures key.Some? <==> level == 1 || level == 3
    ensures level == 1 ==> key == Some(KeyLevel1)
    ensures level == 3 ==> key == Some(KeyLevel2)
  {
    if level == 0x01 then Some(KeyLevel1)
    else if level == 0x03 then Some(KeyLevel2)
    else None
  }

  /** The bytes fed to the CMAC: the first 16 seed bytes, or the whole seed when it is shorter. */
  function SeedInput(seed: seq<bv8>, seedSize: u32): (input: seq<bv8>)
    requires seedSize as int <= |seed|
    ensures |input| <= 16 && |input| <= seedSize as int
    ensures |input| == 16 || |input| == seedSize as int
    ensures input == seed[..|input|]
  {
    var inputLength := if seedSize >= 16 then 16 else seedSize as int;
    seed[..inputLength]
  }

  /**
   * What the routine computes: the key it hands back, or `None` where it
   * returns the error code. `seed` is `None` for a null seed pointer.
   */
  function GeneratedKey(seed: Option<seq<bv8>>, seedSize: u32, level: u32,
                        keyBufferPresent: bool, maxKeySize: u32, cmac: CmacFn): Option<Block>
    requires seed.Some? ==> seedSize as int <= |seed.value|
  {
    if !ArgumentsValid(seed.Some?, seedSize, keyBufferPresent, maxKeySize) then None
    else if SelectKey(level).None? then None
    else cmac(SelectKey(level).value, SeedInput(seed.value, seedSize))
  }

  /**
   * A key is produced exactly when the arguments pass the check, the level is
   * 1 or 3 and the CMAC succeeds; the key is then the CMAC of the level's
   * secret over the seed's first bytes.
   */
  lemma GeneratedKeyCharacterization(seed: Option<seq<bv8>>, seedSize: u32, level: u32,
                                     keyBufferPresent: bool, maxKeySize: u32, cmac: CmacFn)
    requires seed.Some? ==> seedSize as int <= |seed.value|
    ensures GeneratedKey(seed, seedSize, level, keyBufferPresent, maxKeySize, cmac).Some?
            <==> seed.Some? && keyBufferPresent && seedSize != 0 && maxKeySize >= 16
                 && (level == 1 || level == 3)
                 && cmac(SelectKey(level).value, SeedInput(seed.value, seedSize)).Some?
    ensures GeneratedKey(seed, seedSize, level, keyBufferPresent, maxKeySize, cmac).Some? ==>
            GeneratedKey(seed, seedSize, level, keyBufferPresent, maxKeySize, cmac)
            == cmac(if level == 1 then KeyLevel1 else KeyLevel2, SeedInput(seed.value, seedSize))
  {
  }

  /** A level other than 1 and 3 is refused whatever the seed, the buffer and the CMAC. */
  lemma UnsupportedLevelRefused(seed: Option<seq<bv8>>, seedSize: u32, level: u32,
                                keyBufferPresent: bool, maxKeySize: u32, cmac: CmacFn)
    requires seed.Some? ==> seedSize as int <= |seed.value|
    requires level != 1 && level != 3
    ensures GeneratedKey(seed, seedSize, level, keyBufferPresent, maxKeySize, cmac).None?
  {
  }

  /** Seeds that agree on their first 16 bytes give the same key: the bytes after them are ignored. */
  lemma SeedTailIgnored(seed1: seq<bv8>, size1: u32, seed2: seq<bv8>, size2: u32, level: u32,
                        keyBufferPresent: bool, maxKeySize: u32, cmac: CmacFn)
    requires size1 as int <= |seed1| && size2 as int <= |seed2|
    requires size1 >= 16 && size2 >= 16
    requires seed1[..16] == seed2[..16]
    ensures GeneratedKey(Some(seed1), size1, level, keyBufferPresent, maxKeySize, cmac)
            == GeneratedKey(Some(seed2), size2, level, keyBufferPresent, maxKeySize, cmac)
  {
    assert SeedInput(seed1, size1) == seed1[..16];
    assert SeedInput(seed2, size2) == seed2[..16];
  }

  /** Only the first `seedSize` bytes of the seed buffer are read. */
  lemma SeedBeyondSizeIgnored(seed1: seq<bv8>, seed2: seq<bv8>, seedSize: u32, level: u32,
                              keyBufferPresent: bool, maxKeySize: u32, cmac: CmacFn)
    requires seedSize as int <= |seed1| && seedSize as int <= |seed2|
    requires seed1[..seedSize] == seed2[..seedSize]
    ensures GeneratedKey(Some(seed1), seedSize, level, keyBufferPresent, maxKeySize, cmac)
            == GeneratedKey(Some(seed2), seedSize, level, keyBufferPresent, maxKeySize, cmac)
  {
    var n := |SeedInput(seed1, seedSize)|;
    assert seed1[..n] == seed1[..seedSize][..n];
    assert seed2[..n] == seed2[..seedSize][..n];
  }

  /** The two levels use different secrets. */
  lemma LevelKeysDiffer()
    ensures SelectKey(1) != SelectKey(3)
  {
    assert KeyLevel1[0] != KeyLevel2[0];
  }

  /**
   * `GenerateKeyEx`. On success the 16-byte key is copied to the front of the
   * key buffer, the actual key size becomes 16 and 0 is returned; on any
   * failure 2 is returned and neither the buffer nor the size is touched.
   * The variant string is accepted and ignored. `actualKeySizeIn` is the size
   * variable's value on entry, since the routine only writes it on success.
   */
  method GenerateKeyEx(seed: array?<bv8>, seedSize: u32, level: u32, variant: string,
                       keyOut: array?<bv8>, maxKeySize: u32, actualKeySizeIn: u32, cmac: CmacFn)
    returns (code: int, actualKeySize: u32)
    requires seed != null ==> seedSize as int <= seed.Length
    requires keyOut != null ==> maxKeySize as int <= keyOut.Length
    modifies keyOut
    ensures var expected := GeneratedKey(if seed == null then None else Some(old(seed[..])),
                                         seedSize, level, keyOut != null, maxKeySize, cmac);
            if expected.None? then
              code == ResultError && actualKeySize == actualKeySizeIn
              && (keyOut != null ==> keyOut[..] == old(keyOut[..]))
            else
              code == ResultOk && actualKeySize == 16 && keyOut != null
              && keyOut[..16] == expected.value && keyOut[16..] == old(keyOut[16..])
  {
    actualKeySize := actualKeySizeIn;
    if seed == null || keyOut == null || seedSize == 0 || maxKeySize < 16 {
      return ResultError, actualKeySize;
    }
    var selectedKey: Block;
    if level == 0x01 {
      selectedKey := KeyLevel1;
    } else if level == 0x03 {
      selectedKey := KeyLevel2;
    } else {
      return ResultError, actualKeySize;
    }
    var generatedKey := new bv8[16](_ => 0);
    var inputLength := if seedSize >= 16 then 16 else seedSize as int;
    var mac := cmac(selectedKey, seed[..inputLength]);
    if mac.None? {
      return ResultError, actualKeySize;
    }
    forall i | 0 <= i < 16 {
      generatedKey[i] := mac.value[i];
    }
    forall i | 0 <= i < 16 {
      keyOut[i] := generatedKey[i];
    }
    actualKeySize := 16;
    code := ResultOk;
  }
}
