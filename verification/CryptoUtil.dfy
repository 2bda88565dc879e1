/**
 Password encryption: a key made from a secret, zero padding, the electronic codebook mode of section 6.1
 of NIST SP 800-38A over an abstract block cipher, and the base16 text of section 8 of RFC 4648.
 */
module CryptoUtil {
  import opened Options

  type Byte = b: int | 0 <= b < 256
  type Bytes = seq<Byte>

  const BLOCK := 16

  // Why an operation raises CryptoError: nothing given, or anything that went wrong inside.
  datatype CryptoError = EmptyInput | Failed

  // The foreign parts: the block cipher, strict UTF-8, and base64 with validation or without.
  datatype Primitives = Primitives(
    encryptBlock: (Bytes, Bytes) -> Bytes,
    decryptBlock: (Bytes, Bytes) -> Bytes,
    encodeChar: char -> Option<Bytes>,
    decodeText: Bytes -> Option<string>,
    base64: (string, bool) -> Option<Bytes>)
  {
    /** Each key gives a permutation of the blocks. */
    ghost predicate CipherValid() {
      forall key: Bytes, block: Bytes {:trigger encryptBlock(key, block)} | |key| in {16, 24, 32} && |block| == BLOCK ::
        |encryptBlock(key, block)| == BLOCK && decryptBlock(key, encryptBlock(key, block)) == block
    }

    /** A character is at least one byte, a zero byte is the character 0, and decoding undoes encoding. */
    ghost predicate TextValid() {
      && encodeChar('\0') == Some([0])
      && (forall c | encodeChar(c).Some? && c != '\0' :: |encodeChar(c).value| > 0 && 0 !in encodeChar(c).value)
      && (forall text | EncodeText(text).Some? :: decodeText(EncodeText(text).value) == Some(text))
    }

    ghost predicate Valid() {
      CipherValid() && TextValid()
    }

    /** str.encode('utf-8'), None where it raises. */
    function EncodeText(text: string): Option<Bytes> {
      if text == [] then Some([])
      else
        var init := EncodeText(text[..|text| - 1]);
        var last := encodeChar(text[|text| - 1]);
        if init.Some? && last.Some? then Some(init.value + last.value) else None
    }

    /** cipher.encrypt in ECB mode, block by block. */
    function Encrypt(key: Bytes, data: Bytes): Bytes
      requires |data| % BLOCK == 0
      decreases |data|
    {
      if data == [] then [] else encryptBlock(key, data[..BLOCK]) + Encrypt(key, data[BLOCK..])
    }

    function Decrypt(key: Bytes, data: Bytes): Bytes
      requires |data| % BLOCK == 0
      decreases |data|
    {
      if data == [] then [] else decryptBlock(key, data[..BLOCK]) + Decrypt(key, data[BLOCK..])
    }

    /** get_aes_key; the secret is the configured one. */
    function GetAesKey(secret: string): Result<Bytes, CryptoError> {
      if secret == "" then Failure(EmptyInput)
      else
        var key := EncodeText(secret);
        if key.None? then Failure(Failed) else Success(NormalizeKey(key.value))
    }

    /** The key argument, or the configured key when there is none. */
    function KeyOr(key: Option<Bytes>, secret: string): Result<Bytes, CryptoError> {
      if key.Some? then Success(key.value) else GetAesKey(secret)
    }

    /** encrypt_aes_hex. */
    function EncryptAesHex(text: string, key: Option<Bytes>, secret: string): Result<string, CryptoError> {
      if text == "" then Failure(EmptyInput)
      else
        var k := KeyOr(key, secret);
        var data := EncodeText(text);
        if k.Failure? || data.None? || !KeyFits(k.value) then Failure(Failed)
        else Success(Hex(Encrypt(k.value, ZeroPad(data.value))))
    }

    /** What decrypt_aes_hex and decrypt_aes_base64 do with the bytes of the ciphertext. */
    function DecryptBytes(data: Option<Bytes>, key: Option<Bytes>, secret: string): Result<string, CryptoError> {
      var k := KeyOr(key, secret);
      if k.Failure? || data.None? || !KeyFits(k.value) || |data.value| % BLOCK != 0 then Failure(Failed)
      else
        var text := decodeText(ZeroUnpad(Decrypt(k.value, data.value)));
        if text.None? then Failure(Failed) else Success(text.value)
    }

    /** decrypt_aes_hex. */
    function DecryptAesHex(hex: string, key: Option<Bytes>, secret: string): Result<string, CryptoError> {
      if hex == "" then Failure(EmptyInput) else DecryptBytes(FromHex(hex), key, secret)
    }

    /** decrypt_aes_base64. */
    function DecryptAesBase64(text: string, key: Option<Bytes>, secret: string): Result<string, CryptoError> {
      if text == "" then Failure(EmptyInput) else DecryptBytes(base64(text, false), key, secret)
    }

    /** decrypt_password. */
    function DecryptPassword(text: string, secret: string): Result<string, CryptoError> {
      if text == "" then Success("")
      else if "hex:" <= text then DecryptAesHex(text[4..], None, secret)
      else if IsHexCiphertext(text) then DecryptAesHex(text, None, secret)
      else if base64(text, true).Some? then DecryptAesBase64(text, None, secret)
      else DecryptAesHex(text, None, secret)
    }
  }

  /** AES.new accepts no other key. */
  predicate KeyFits(key: Bytes) {
    |key| in {16, 24, 32}
  }

  /** Short keys are filled with zeros, odd ones cut to 16. */
  function NormalizeKey(key: Bytes): Bytes {
    if |key| < 16 then key + Zeros(16 - |key|) else if !KeyFits(key) then key[..16] else key
  }

  function Zeros(n: nat): Bytes {
    seq(n, _ => 0)
  }

  /** zero_pad, with its default block size. */
  function ZeroPad(data: Bytes): Bytes {
    var remainder := |data| % BLOCK;
    if remainder == 0 then data else data + Zeros(BLOCK - remainder)
  }

  /** zero_unpad. */
  function ZeroUnpad(data: Bytes): Bytes {
    if data != [] && data[|data| - 1] == 0 then ZeroUnpad(data[..|data| - 1]) else data
  }

  const HEX_DIGITS := "0123456789abcdef"

  function Hex(data: Bytes): string {
    if data == [] then "" else [HEX_DIGITS[data[0] / 16], HEX_DIGITS[data[0] % 16]] + Hex(data[1..])
  }

  function HexValue(c: char): Option<int> {
    if '0' <= c <= '9' then Some(c as int - '0' as int)
    else if 'a' <= c <= 'f' then Some(c as int - 'a' as int + 10)
    else if 'A' <= c <= 'F' then Some(c as int - 'A' as int + 10)
    else None
  }

  predicate IsSpace(c: char) {
    c == ' ' || 9 <= c as int <= 13
  }

  /** bytes.fromhex: pairs of digits of either case, with ASCII white space allowed between the pairs. */
  function FromHex(s: string): Option<Bytes> {
    if s == "" then Some([])
    else if IsSpace(s[0]) then FromHex(s[1..])
    else if |s| == 1 || HexValue(s[0]).None? || HexValue(s[1]).None? then None
    else
      var rest := FromHex(s[2..]);
      if rest.None? then None else Some([HexValue(s[0]).value * 16 + HexValue(s[1]).value] + rest.value)
  }

  /** is_hex_ciphertext. */
  predicate IsHexCiphertext(s: string) {
    s != "" && |s| % 2 == 0 && FromHex(s).Some?
  }

  function StripNul(text: string): string {
    if text != [] && text[|text| - 1] == '\0' then StripNul(text[..|text| - 1]) else text
  }

  /** Every key made from a non-empty secret is one AES accepts; it has 16 bytes unless the secret has 24 or 32. */
  lemma NormalizedKeyFits(key: Bytes)
    ensures KeyFits(NormalizeKey(key))
    ensures |NormalizeKey(key)| == 16 <==> |key| !in {24, 32}
    ensures |key| < 16 ==> ZeroUnpad(NormalizeKey(key)) == ZeroUnpad(key)
  {
    if |key| < 16 { UnpadZeros(key, 16 - |key|); }
  }

  lemma {:induction false} UnpadZeros(data: Bytes, n: nat)
    ensures ZeroUnpad(data + Zeros(n)) == ZeroUnpad(data)
    decreases n
  {
    if n == 0 {
      assert data + Zeros(0) == data;
    } else {
      assert (data + Zeros(n))[..|data| + n - 1] == data + Zeros(n - 1);
      UnpadZeros(data, n - 1);
    }
  }

  /** Padding reaches a whole number of blocks with fewer than one block of zeros, which unpadding takes away. */
  lemma PadThenUnpad(data: Bytes)
    ensures var padded := ZeroPad(data);
      && |padded| % BLOCK == 0 && data <= padded && |padded| < |data| + BLOCK
      && ZeroUnpad(padded) == ZeroUnpad(data)
      && (ZeroUnpad(padded) == data <==> data == [] || data[|data| - 1] != 0)
  {
    var remainder := |data| % BLOCK;
    if remainder != 0 {
      WholeBlocks(|data|);
      UnpadZeros(data, BLOCK - remainder);
    }
    UnpadLength(data);
  }

  lemma WholeBlocks(length: nat)
    requires length % BLOCK != 0
    ensures (length + (BLOCK - length % BLOCK)) % BLOCK == 0
  {
  }

  lemma {:induction false} UnpadLength(data: Bytes)
    ensures ZeroUnpad(data) <= data
    ensures ZeroUnpad(data) == data <==> data == [] || data[|data| - 1] != 0
  {
    if data != [] && data[|data| - 1] == 0 { UnpadLength(data[..|data| - 1]); }
  }

  lemma {:induction false} DecryptUndoesEncrypt(p: Primitives, key: Bytes, data: Bytes)
    requires p.CipherValid() && KeyFits(key) && |data| % BLOCK == 0
    ensures |p.Encrypt(key, data)| == |data|
    ensures p.Decrypt(key, p.Encrypt(key, data)) == data
    decreases |data|
  {
    if data != [] {
      var first := p.encryptBlock(key, data[..BLOCK]);
      var rest := p.Encrypt(key, data[BLOCK..]);
      DecryptUndoesEncrypt(p, key, data[BLOCK..]);
      assert (first + rest)[..BLOCK] == first && (first + rest)[BLOCK..] == rest;
      assert data[..BLOCK] + data[BLOCK..] == data;
    }
  }

  lemma HexDigitValue(n: int)
    requires 0 <= n < 16
    ensures HexValue(HEX_DIGITS[n]) == Some(n) && !IsSpace(HEX_DIGITS[n]) && HEX_DIGITS[n] != 'h'
  {
  }

  /** Reading hexadecimal text gives back the bytes it was written from; the text is even and has no blanks. */
  lemma {:induction false} FromHexUndoesHex(data: Bytes)
    ensures FromHex(Hex(data)) == Some(data)
    ensures |Hex(data)| == 2 * |data|
    ensures data != [] ==> Hex(data)[0] != 'h'
  {
    if data != [] {
      HexDigitValue(data[0] / 16);
      HexDigitValue(data[0] % 16);
      FromHexUndoesHex(data[1..]);
      var hex := Hex(data);
      assert [data[0]] + data[1..] == data;
      assert hex[0] == HEX_DIGITS[data[0] / 16] && hex[1] == HEX_DIGITS[data[0] % 16] && hex[2..] == Hex(data[1..]);
    }
  }

  /** Encoding a text without its trailing zero characters leaves out exactly the trailing zero bytes. */
  lemma {:induction false} UnpadIsStrip(p: Primitives, text: string)
    requires p.TextValid() && p.EncodeText(text).Some?
    ensures p.EncodeText(StripNul(text)) == Some(ZeroUnpad(p.EncodeText(text).value))
    ensures text != "" ==> p.EncodeText(text).value != []
    ensures ZeroUnpad(p.EncodeText(text).value) == p.EncodeText(text).value <==> StripNul(text) == text
  {
    var data := p.EncodeText(text).value;
    UnpadLength(data);
    if text != "" {
      var init, last := text[..|text| - 1], text[|text| - 1];
      var bytes := p.encodeChar(last).value;
      assert data == p.EncodeText(init).value + bytes;
      if last == '\0' {
        assert data[..|data| - 1] == p.EncodeText(init).value;
        UnpadIsStrip(p, init);
        UnpadLength(p.EncodeText(init).value);
        StripShortens(text);
      } else {
        assert data[|data| - 1] == bytes[|bytes| - 1] && bytes[|bytes| - 1] in bytes;
      }
    }
  }

  lemma {:induction false} StripShortens(text: string)
    ensures StripNul(text) <= text
    ensures StripNul(text) == text <==> text == "" || text[|text| - 1] != '\0'
  {
    if text != "" && text[|text| - 1] == '\0' { StripShortens(text[..|text| - 1]); }
  }

  lemma EncryptedBytes(p: Primitives, key: Bytes, data: Bytes)
    requires p.CipherValid() && KeyFits(key) && data != []
    ensures |ZeroPad(data)| % BLOCK == 0
    ensures var encrypted := p.Encrypt(key, ZeroPad(data));
      && |encrypted| == |ZeroPad(data)| && p.Decrypt(key, encrypted) == ZeroPad(data)
      && FromHex(Hex(encrypted)) == Some(encrypted) && IsHexCiphertext(Hex(encrypted)) && Hex(encrypted)[0] != 'h'
  {
    PadThenUnpad(data);
    hide ZeroPad;
    DecryptUndoesEncrypt(p, key, ZeroPad(data));
    FromHexUndoesHex(p.Encrypt(key, ZeroPad(data)));
  }

  /** What encrypt_aes_hex produces: hexadecimal for whole blocks that decrypt to the padded text. */
  lemma CiphertextShape(p: Primitives, text: string, key: Option<Bytes>, secret: string, cipher: string)
    requires p.Valid() && p.EncryptAesHex(text, key, secret) == Success(cipher)
    ensures IsHexCiphertext(cipher) && cipher[0] != 'h'
    ensures var data := FromHex(cipher);
      && data.Some? && |data.value| % BLOCK == 0
      && p.Decrypt(p.KeyOr(key, secret).value, data.value) == ZeroPad(p.EncodeText(text).value)
  {
    UnpadIsStrip(p, text);
    EncryptedBytes(p, p.KeyOr(key, secret).value, p.EncodeText(text).value);
    hide ZeroPad, Hex, FromHex, Primitives.EncodeText, Primitives.Encrypt, Primitives.Decrypt;
  }

  /**
   Decrypting what was encrypted under the same key gives the text without its trailing zero characters,
   so it gives back the text exactly when the text does not end in one.
   */
  lemma DecryptUndoesEncryptText(p: Primitives, text: string, key: Option<Bytes>, secret: string, cipher: string)
    requires p.Valid() && p.EncryptAesHex(text, key, secret) == Success(cipher)
    ensures p.DecryptAesHex(cipher, key, secret) == Success(StripNul(text))
    ensures p.DecryptAesHex(cipher, key, secret) == Success(text) <==> text[|text| - 1] != '\0'
  {
    hide FromHex, ZeroPad, ZeroUnpad, StripNul, Hex, Primitives.Decrypt, Primitives.Encrypt;
    CiphertextShape(p, text, key, secret, cipher);
    PadThenUnpad(p.EncodeText(text).value);
    UnpadIsStrip(p, text);
    StripShortens(text);
  }

  /** decrypt_password takes every ciphertext of encrypt_aes_hex as hexadecimal, bare or after the prefix. */
  lemma PasswordUndoesEncrypt(p: Primitives, text: string, secret: string, cipher: string)
    requires p.Valid() && p.EncryptAesHex(text, None, secret) == Success(cipher)
    ensures IsHexCiphertext(cipher) && !("hex:" <= cipher)
    ensures p.DecryptPassword(cipher, secret) == Success(StripNul(text))
    ensures p.DecryptPassword("hex:" + cipher, secret) == Success(StripNul(text))
  {
    hide FromHex, StripNul;
    CiphertextShape(p, text, None, secret, cipher);
    DecryptUndoesEncryptText(p, text, None, secret, cipher);
    assert ("hex:" + cipher)[4..] == cipher;
  }

  /** Two different texts that do not end in the character 0 never share a ciphertext. */
  lemma CiphertextsDiffer(p: Primitives, a: string, b: string, key: Option<Bytes>, secret: string, ca: string, cb: string)
    requires p.Valid() && a != b
    requires p.EncryptAesHex(a, key, secret) == Success(ca) && p.EncryptAesHex(b, key, secret) == Success(cb)
    requires a[|a| - 1] != '\0' && b[|b| - 1] != '\0'
    ensures ca != cb
  {
    DecryptUndoesEncryptText(p, a, key, secret, ca);
    DecryptUndoesEncryptText(p, b, key, secret, cb);
  }

  /** Encryption under the configured key fails exactly for an empty or unencodable text or secret. */
  lemma EncryptFailsExactly(p: Primitives, text: string, secret: string)
    ensures p.EncryptAesHex(text, None, secret).Failure? <==>
      text == "" || secret == "" || p.EncodeText(text).None? || p.EncodeText(secret).None?
  {
    if secret != "" && p.EncodeText(secret).Some? {
      NormalizedKeyFits(p.EncodeText(secret).value);
    }
  }

  /**
   The last branch of decrypt_password, text that is neither hexadecimal of even length nor base64, only ever
   succeeds on hexadecimal of odd length, which means digits with an odd number of blanks between them.
   */
  lemma {:induction false} LastBranchNeedsBlanks(p: Primitives, text: string, secret: string)
    requires text != "" && !("hex:" <= text) && !IsHexCiphertext(text) && p.base64(text, true).None?
    ensures p.DecryptPassword(text, secret).Success? ==> |text| % 2 == 1 && exists c | c in text :: IsSpace(c)
  {
    if |text| % 2 == 1 && FromHex(text).Some? { OddHexHasBlank(text); }
  }

  lemma {:induction false} OddHexHasBlank(s: string)
    requires |s| % 2 == 1 && FromHex(s).Some?
    ensures exists c | c in s :: IsSpace(c)
  {
    if !IsSpace(s[0]) {
      OddHexHasBlank(s[2..]);
      var c :| c in s[2..] && IsSpace(c);
      assert c in s;
    } else {
      assert s[0] in s;
    }
  }

  // ---------- every byte and every digit ----------

  /** The key: of 16, 24 or 32 bytes if the secret has that many, else of 16; the secret's bytes, then zeros. */
  lemma NormalizedKeyExactly(key: Bytes)
    ensures var fitted := NormalizeKey(key);
      && |fitted| == (if |key| == 24 || |key| == 32 then |key| else 16)
      && forall i | 0 <= i < |fitted| :: fitted[i] == if i < |key| then key[i] else 0
  {
  }

  /** Encryption without a key argument is encryption under the secret's key. */
  lemma ConfiguredKeyExactly(p: Primitives, text: string, secret: string, cipher: string)
    requires p.EncryptAesHex(text, None, secret) == Success(cipher)
    ensures var bytes := p.EncodeText(secret);
      bytes.Some? && p.EncryptAesHex(text, Some(NormalizeKey(bytes.value)), "") == Success(cipher)
  {
  }

  /** Unpadding takes away all the trailing zeros and nothing else. */
  lemma {:induction false} UnpadExactly(data: Bytes)
    ensures var rest := ZeroUnpad(data);
      && |rest| <= |data| && rest == data[..|rest|]
      && (forall i | |rest| <= i < |data| :: data[i] == 0)
      && (rest != [] ==> rest[|rest| - 1] != 0)
  {
    if data != [] && data[|data| - 1] == 0 { UnpadExactly(data[..|data| - 1]); }
  }

  lemma {:induction false} StripExactly(text: string)
    ensures var rest := StripNul(text);
      && |rest| <= |text| && rest == text[..|rest|]
      && (forall i | |rest| <= i < |text| :: text[i] == '\0')
      && (rest != "" ==> rest[|rest| - 1] != '\0')
  {
    if text != "" && text[|text| - 1] == '\0' { StripExactly(text[..|text| - 1]); }
  }

  function BlockAt(data: Bytes, i: nat): Bytes
    requires BLOCK * i + BLOCK <= |data|
  {
    data[BLOCK * i..BLOCK * i + BLOCK]
  }

  /** Each block is encrypted by itself, under the same key. */
  lemma {:induction false} EveryBlockByItself(p: Primitives, key: Bytes, data: Bytes, i: nat)
    requires p.CipherValid() && KeyFits(key) && |data| % BLOCK == 0 && BLOCK * i + BLOCK <= |data|
    ensures |p.Encrypt(key, data)| == |data|
    ensures BlockAt(p.Encrypt(key, data), i) == p.encryptBlock(key, BlockAt(data, i))
    decreases i
  {
    DecryptUndoesEncrypt(p, key, data);
    DecryptUndoesEncrypt(p, key, data[BLOCK..]);
    var first, rest := p.encryptBlock(key, data[..BLOCK]), p.Encrypt(key, data[BLOCK..]);
    assert p.Encrypt(key, data) == first + rest;
    if i > 0 {
      EveryBlockByItself(p, key, data[BLOCK..], i - 1);
      assert BlockAt(first + rest, i) == BlockAt(rest, i - 1);
      assert BlockAt(data, i) == BlockAt(data[BLOCK..], i - 1);
    }
  }

  /** A byte is written as its two digits of base 16, high one first, in small letters. */
  lemma {:induction false} HexExactly(data: Bytes, i: nat)
    requires i < |data|
    ensures |Hex(data)| == 2 * |data|
    ensures Hex(data)[2 * i] == "0123456789abcdef"[data[i] / 16] && Hex(data)[2 * i + 1] == "0123456789abcdef"[data[i] % 16]
  {
    FromHexUndoesHex(data);
    FromHexUndoesHex(data[1..]);
    if i > 0 {
      HexExactly(data[1..], i - 1);
      assert Hex(data)[2 * i] == Hex(data[1..])[2 * (i - 1)] && Hex(data)[2 * i + 1] == Hex(data[1..])[2 * (i - 1) + 1];
    }
  }

  /** A digit of base 16 has the value of its place, in either case; no other character has one. */
  lemma HexValueExactly(c: char)
    ensures HexValue(c).Some? ==>
      && 0 <= HexValue(c).value < 16
      && (c == "0123456789abcdef"[HexValue(c).value] || c == "0123456789ABCDEF"[HexValue(c).value])
    ensures forall n | 0 <= n < 16 && (c == "0123456789abcdef"[n] || c == "0123456789ABCDEF"[n]) :: HexValue(c) == Some(n)
  {
  }

  /** Text made of two parts is read part by part, */
  lemma {:induction false} FromHexConcat(a: string, b: string)
    requires FromHex(a).Some?
    ensures FromHex(a + b) == if FromHex(b).Some? then Some(FromHex(a).value + FromHex(b).value) else None
  {
    if a == "" {
      assert a + b == b;
      assert FromHex(b).Some? ==> [] + FromHex(b).value == FromHex(b).value;
    } else if IsSpace(a[0]) {
      assert (a + b)[1..] == a[1..] + b;
      FromHexConcat(a[1..], b);
    } else {
      FromHexConcat(a[2..], b);
      PairThenRest(a[0], a[1], a[2..]);
      PairThenRest(a[0], a[1], a[2..] + b);
      assert a == [a[0], a[1]] + a[2..] && a + b == [a[0], a[1]] + (a[2..] + b);
      hide FromHex;
      if FromHex(b).Some? {
        var first, rest := [HexValue(a[0]).value * 16 + HexValue(a[1]).value], FromHex(a[2..]).value;
        assert first + (rest + FromHex(b).value) == (first + rest) + FromHex(b).value;
      }
    }
  }

  lemma PairThenRest(high: char, low: char, rest: string)
    requires HexValue(high).Some? && HexValue(low).Some? && !IsSpace(high)
    ensures FromHex([high, low] + rest) ==
      if FromHex(rest).Some? then Some([HexValue(high).value * 16 + HexValue(low).value] + FromHex(rest).value) else None
  {
    HexRange(high);
    HexRange(low);
    hide HexValue, IsSpace;
    var s := [high, low] + rest;
    assert s[0] == high && s[1] == low && s[2..] == rest;
  }

  lemma HexRange(c: char)
    ensures HexValue(c).Some? ==> 0 <= HexValue(c).value < 16
  {
  }

  /** two digits make one byte, blanks none, and text without blanks is read exactly when it is pairs of digits. */
  lemma {:induction false} FromHexExactly(s: string)
    requires forall c | c in s :: !IsSpace(c)
    ensures FromHex(s).Some? <==> |s| % 2 == 0 && forall c | c in s :: HexValue(c).Some?
    ensures FromHex(s).Some? ==>
      && 2 * |FromHex(s).value| == |s|
      && forall i | 0 <= i < |FromHex(s).value| ::
           FromHex(s).value[i] == 16 * HexValue(s[2 * i]).value + HexValue(s[2 * i + 1]).value
  {
    if |s| >= 2 {
      FromHexExactly(s[2..]);
      assert s == [s[0], s[1]] + s[2..];
      assert HexValue(s[0]).Some? && HexValue(s[1]).Some? && FromHex(s[2..]).Some? ==>
        forall i | 1 <= i < |FromHex(s).value| :: FromHex(s).value[i] == FromHex(s[2..]).value[i - 1];
    } else if |s| == 1 {
      assert s[0] in s;
    }
  }

  lemma BlanksAreSkipped(blank: char, digit: char, s: string)
    requires blank in [' ', '\t', '\n', '\r'] || blank as int == 11 || blank as int == 12
    ensures FromHex([blank]) == Some([])
    ensures !IsSpace(digit) ==> FromHex([digit, blank] + s).None?
  {
    assert [blank][1..] == "";
  }

  /**
   decrypt_password takes text that is base64 and not hexadecimal as base64: from the bytes of a ciphertext it gives
   back what was encrypted, as it does from hexadecimal.
   */
  lemma Base64PasswordUndoesEncrypt(p: Primitives, text: string, secret: string, cipher: string, written: string)
    requires p.Valid() && p.EncryptAesHex(text, None, secret) == Success(cipher)
    requires written != "" && !("hex:" <= written) && !IsHexCiphertext(written)
    requires p.base64(written, true).Some? && p.base64(written, false) == FromHex(cipher)
    ensures p.DecryptPassword(written, secret) == Success(StripNul(text))
  {
    hide FromHex, StripNul;
    CiphertextShape(p, text, None, secret, cipher);
    DecryptUndoesEncryptText(p, text, None, secret, cipher);
  }

  /** An empty password is the empty password; an empty text or ciphertext is refused as empty, and nothing else is. */
  lemma EmptyExactly(p: Primitives, text: string, key: Option<Bytes>, secret: string)
    ensures p.DecryptPassword("", secret) == Success("")
    ensures p.DecryptPassword("hex:", secret) == Failure(EmptyInput)
    ensures p.EncryptAesHex(text, key, secret) == Failure(EmptyInput) <==> text == ""
    ensures p.DecryptAesHex(text, key, secret) == Failure(EmptyInput) <==> text == ""
    ensures p.DecryptAesBase64(text, key, secret) == Failure(EmptyInput) <==> text == ""
  {
    assert "hex:"[4..] == "";
  }

  // ---------- the assumptions can be met ----------

  function DecodeAscii(data: Bytes): string {
    seq(|data|, i requires 0 <= i < |data| => data[i] as char)
  }

  const AsciiPrimitives: Primitives := Primitives(
    (key, block) => block,
    (key, block) => block,
    c => if c as int < 128 then Some([c as int]) else None,
    data => Some(DecodeAscii(data)),
    (text, validate) => None)

  lemma {:induction false} AsciiRoundTrip(text: string)
    requires AsciiPrimitives.EncodeText(text).Some?
    ensures DecodeAscii(AsciiPrimitives.EncodeText(text).value) == text
  {
    if text != "" {
      AsciiRoundTrip(text[..|text| - 1]);
      assert text == text[..|text| - 1] + [text[|text| - 1]];
    }
  }

  /** Plain ASCII and the identity permutation satisfy everything that is assumed of the foreign parts. */
  lemma AsciiPrimitivesAreValid()
    ensures AsciiPrimitives.Valid()
  {
    forall text | AsciiPrimitives.EncodeText(text).Some?
      ensures AsciiPrimitives.decodeText(AsciiPrimitives.EncodeText(text).value) == Some(text)
    {
      AsciiRoundTrip(text);
    }
  }
}
