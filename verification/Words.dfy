/** Big-endian words, 64-bit patterns and padded strings, with their encoders. */
module Words {
  import opened Base

  type Byte = b: int | 0 <= b < 256
  type Bytes = seq<Byte>

  const WORD := 0x1_0000_0000
  const HALF_WORD := 0x8000_0000

  predicate IsWord(w: int) {
    0 <= w < WORD
  }

  predicate IsInt32(n: int) {
    -HALF_WORD <= n < HALF_WORD
  }

  predicate IsInt8(n: int) {
    -128 <= n < 128
  }

  predicate IsBits64(bits: int) {
    0 <= bits < WORD * WORD
  }

  /** `buf` holds exactly the bytes `s` from position `p` on. */
  ghost predicate At(buf: Bytes, p: int, s: Bytes) {
    0 <= p && p + |s| <= |buf| && buf[p..p + |s|] == s
  }

  lemma AtSplit(buf: Bytes, p: int, a: Bytes, b: Bytes)
    requires At(buf, p, a + b)
    ensures At(buf, p, a) && At(buf, p + |a|, b)
  {
    var s := buf[p..p + |a + b|];
    assert s[..|a|] == a && s[|a|..] == b;
    assert buf[p..p + |a|] == s[..|a|];
    assert buf[p + |a|..p + |a| + |b|] == s[|a|..];
  }

  lemma AtInside(buf: Bytes, p: int, s: Bytes)
    requires At(buf, p, s)
    ensures 0 <= p && p + |s| <= |buf|
  {
  }

  lemma AtSelf(a: Bytes, b: Bytes, c: Bytes)
    ensures At(a + b + c, |a|, b)
  {
    assert (a + b + c)[|a|..|a| + |b|] == b;
  }

  // ---------------------------------------------------------------- words

  function GetWord(buf: Bytes, p: int): (r: Result<int>)
    ensures r.Ok? <==> 0 <= p && p + 4 <= |buf|
    ensures r.Ok? ==> IsWord(r.value)
    ensures r.Err? ==> r.error == OutOfBuffer
  {
    if 0 <= p && p + 4 <= |buf| then
      Ok((((buf[p] as int) * 256 + buf[p + 1]) * 256 + buf[p + 2]) * 256 + buf[p + 3])
    else
      Err(OutOfBuffer)
  }

  /** A word stored into a C `int`. */
  function Signed(w: int): int {
    if w < HALF_WORD then w else w - WORD
  }

  function Unsigned(n: int): int {
    if n < 0 then n + WORD else n
  }

  function GetInt(buf: Bytes, p: int): (r: Result<int>)
    ensures r.Ok? <==> 0 <= p && p + 4 <= |buf|
    ensures r.Ok? ==> IsInt32(r.value)
    ensures r.Err? ==> r.error == OutOfBuffer
  {
    var w :- GetWord(buf, p);
    Ok(Signed(w))
  }

  /** The low byte of a word, read as a signed char at offset 3. */
  function GetInt8(buf: Bytes, p: int): (r: Result<int>)
    ensures r.Ok? ==> IsInt8(r.value)
  {
    if 0 <= p + 3 < |buf| then
      Ok(if buf[p + 3] < 128 then buf[p + 3] else (buf[p + 3] as int) - 256)
    else
      Err(OutOfBuffer)
  }

  /** A double is moved as its 64-bit pattern. */
  function GetBits(buf: Bytes, p: int): (r: Result<int>)
    ensures r.Ok? ==> IsBits64(r.value)
    ensures r.Ok? <==> 0 <= p && p + 8 <= |buf|
  {
    if 0 <= p && p + 8 <= |buf| then
      Ok(GetWord(buf, p).value * WORD + GetWord(buf, p + 4).value)
    else
      Err(OutOfBuffer)
  }

  function EncWord(w: int): (s: Bytes)
    ensures |s| == 4
  {
    var w1 := w / 256;
    var w2 := w1 / 256;
    [w2 / 256 % 256, w2 % 256, w1 % 256, w % 256]
  }

  function EncInt(n: int): (s: Bytes)
    ensures |s| == 4
  {
    EncWord(Unsigned(n))
  }

  function EncBits(bits: int): (s: Bytes)
    ensures |s| == 8
  {
    EncWord(bits / WORD) + EncWord(bits % WORD)
  }

  lemma WordAt(buf: Bytes, p: int, w: int)
    requires IsWord(w) && At(buf, p, EncWord(w))
    ensures GetWord(buf, p) == Ok(w)
  {
    var s := buf[p..p + 4];
    assert buf[p] == s[0] && buf[p + 1] == s[1] && buf[p + 2] == s[2] && buf[p + 3] == s[3];
    var w1 := w / 256;
    var w2 := w1 / 256;
    assert s[0] * 256 + s[1] == w2;
    assert w2 * 256 + s[2] == w1;
    assert w1 * 256 + s[3] == w;
  }

  lemma IntAt(buf: Bytes, p: int, n: int)
    requires IsInt32(n) && At(buf, p, EncInt(n))
    ensures GetInt(buf, p) == Ok(n)
  {
    WordAt(buf, p, Unsigned(n));
  }

  /** The low byte of a word as a signed number. */
  function LowByte(n: int): int {
    if n % 256 < 128 then n % 256 else n % 256 - 256
  }

  lemma Int8At(buf: Bytes, p: int, n: int)
    requires IsInt32(n) && At(buf, p, EncInt(n))
    ensures GetInt8(buf, p) == Ok(LowByte(n))
  {
    var w := Unsigned(n);
    assert buf[p + 3] == buf[p..p + 4][3] == w % 256;
    SameLowByte(n);
  }

  lemma SameLowByte(n: int)
    ensures Unsigned(n) % 256 == n % 256
  {
    assert n + WORD == n + 256 * (WORD / 256);
  }

  lemma BitsAt(buf: Bytes, p: int, bits: int)
    requires IsBits64(bits) && At(buf, p, EncBits(bits))
    ensures GetBits(buf, p) == Ok(bits)
  {
    hide At, GetWord, EncWord;
    AtSplit(buf, p, EncWord(bits / WORD), EncWord(bits % WORD));
    WordAt(buf, p, bits / WORD);
    WordAt(buf, p + 4, bits % WORD);
  }

  // ---------------------------------------------------------------- strings

  /** Bytes that align a string of length `n` to the next word. */
  function Padding(n: int): (k: int)
    ensures 0 <= k < 4 && (n + k) % 4 == 0
  {
    (4 - n) % 4
  }

  /** A length word, the characters, and padding that is skipped unread. */
  function ParseString(buf: Bytes, p: int): (r: Parsed<Bytes>)
    ensures r.Ok? ==> p + 4 <= r.value.1
  {
    var len :- GetInt(buf, p);
    if len < 0 then Err(BadLength)
    else if |buf| < p + 4 + len then Err(OutOfBuffer)
    else Ok((buf[p + 4..p + 4 + len], p + 4 + len + Padding(len)))
  }

  predicate IsString(s: Bytes) {
    |s| < HALF_WORD
  }

  /** What a parser skips in an encoded object: padding bytes and words, part by part. An encoder may write
      anything there; where the parts do not fit the object, it writes zeros. */
  datatype Skipped =
    | Nothing
    | PaddingBytes(bytes: Bytes)
    | SkippedWord(n: AnyInt32)
    | Parts(first: Skipped, rest: Skipped)

  type AnyInt32 = n: int | IsInt32(n)

  function FirstOf(skipped: Skipped): Skipped {
    if skipped.Parts? then skipped.first else Nothing
  }

  function RestOf(skipped: Skipped): Skipped {
    if skipped.Parts? then skipped.rest else Nothing
  }

  function WordOf(skipped: Skipped): AnyInt32 {
    if skipped.SkippedWord? then skipped.n else 0
  }

  /** The padding behind a string of length `n`. */
  function PaddingOf(skipped: Skipped, n: int): (s: Bytes)
    ensures |s| == Padding(n)
  {
    if skipped.PaddingBytes? && |skipped.bytes| == Padding(n) then skipped.bytes else seq(Padding(n), _ => 0)
  }

  function EncString(s: Bytes, skipped: Skipped): (r: Bytes)
    ensures |r| == 4 + |s| + Padding(|s|)
  {
    EncInt(|s|) + s + PaddingOf(skipped, |s|)
  }

  lemma StringAt(buf: Bytes, p: int, s: Bytes, skipped: Skipped)
    requires IsString(s) && At(buf, p, EncString(s, skipped))
    ensures ParseString(buf, p) == Ok((s, p + |EncString(s, skipped)|))
  {
    AtSplit(buf, p, EncInt(|s|) + s, PaddingOf(skipped, |s|));
    AtSplit(buf, p, EncInt(|s|), s);
    IntAt(buf, p, |s|);
  }

  // ---------------------------------------------------------------- chunk tags

  /** The tag check at the head of every chunk; a chunk class without a type accepts any tag. */
  function ParseTag(buf: Bytes, p: int, expected: Option<int>): (r: Result<int>)
    ensures r.Ok? ==> r.value == p + 4 && 0 <= p && p + 4 <= |buf|
  {
    var tag :- GetWord(buf, p);
    if expected.Some? && tag != expected.value then Err(IncorrectChunk(tag)) else Ok(p + 4)
  }
}
