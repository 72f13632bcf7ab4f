/**
 * ProductId: an immutable wrapper around a java.util.UUID, with value
 * equality, three factories, the canonical text form and its parser.
 */
module ProductIds {
  import opened Wrappers
  import opened JavaLang
  import Hex

  const TWO_TO_64: int := 0x1_0000_0000_0000_0000

  /** The bit pattern of one Java `long`, read as an unsigned number. */
  type UInt64 = x: int | 0 <= x < 0x1_0000_0000_0000_0000

  /** A 128-bit UUID held as its most and least significant 64-bit halves. */
  datatype Uuid = Uuid(msb: UInt64, lsb: UInt64)

  /** The identity of a product. Dafny's equality on it is equality of the wrapped UUID. */
  datatype ProductId = ProductId(value: Uuid)

  /** Why a ProductId could not be built. */
  datatype IdError =
    | MalformedText  // UUID.fromString rejected the text (IllegalArgumentException)
    | NullValue      // Objects.requireNonNull rejected a null UUID (NullPointerException)

  /** `ProductId.of(UUID)`: any UUID is wrapped unchanged; null is rejected. */
  function OfUuid(u: Option<Uuid>): (r: Result<ProductId, IdError>)
    ensures r.Success? <==> u.Some?
    ensures r.Success? ==> r.value.value == u.value
    ensures r.Failure? ==> r.error == NullValue
  {
    match u
    case None => Failure(NullValue)
    case Some(v) => Success(ProductId(v))
  }

  /** `toLong()`: the least significant bits, read back as a signed `long`. */
  function ToLong(id: ProductId): (v: Int64)
    ensures v % TWO_TO_64 == id.value.lsb
  {
    if id.value.lsb < 0x8000_0000_0000_0000 then id.value.lsb else id.value.lsb - TWO_TO_64
  }

  /** `ProductId.of(Long)`: `new UUID(0L, v)`, keeping the two's-complement bits of `v`. */
  function OfLong(v: Int64): (id: ProductId)
    ensures id.value.msb == 0
    ensures ToLong(id) == v
  {
    ProductId(Uuid(0, if v < 0 then v + TWO_TO_64 else v))
  }

  /** `(int)(hilo >> 32) ^ (int)hilo`: the high and low 32-bit words of `hilo` XOR-ed. */
  function Fold(hilo: bv64): bv32 {
    ((hilo >> 32) ^ (hilo & 0xFFFF_FFFF)) as bv32
  }

  /** A 32-bit word read as a signed Java `int`. */
  function Signed(w: bv32): Int32 {
    var n := (w as bv64) as int;
    if n < 0x8000_0000 then n else n - 0x1_0000_0000
  }

  /** `hashCode()`, that is `UUID.hashCode()`: the two halves XOR-ed, then folded to an `int`. */
  function HashCode(id: ProductId): (h: Int32)
    ensures id.value.msb == id.value.lsb ==> h == 0
  {
    Signed(Fold((id.value.msb as bv64) ^ (id.value.lsb as bv64)))
  }

  /** Equal ids have equal hashes, as `equals`/`hashCode` promise. */
  lemma EqualIdsHaveEqualHashes(x: ProductId, y: ProductId)
    requires x == y
    ensures HashCode(x) == HashCode(y)
  {
  }

  /**
   * The fold XORs the two words rather than keeping one: a value with an
   * empty high word is its own fold, all 64 bits set fold to 0, bit 32 folds
   * to bit 0, and the halves of the sample UUID of ProductIdTest,
   * 123e4567-e89b-12d3-a456-426614174000, fold to 0x4ae455d2.
   */
  lemma FoldSamples()
    ensures Fold(0x075b_cd15) == 0x075b_cd15
    ensures Fold(0xffff_ffff_ffff_ffff) == 0
    ensures Fold(0x1_0000_0000) == 1
    ensures Fold(0x123e_4567_e89b_12d3 ^ 0xa456_4266_1417_4000) == 0x4ae4_55d2
  {
  }

  /** Words from bit pattern 0x80000000 up read as negative `int`s (two's complement). */
  lemma SignedSamples()
    ensures Signed(0x4ae4_55d2) == 0x4ae4_55d2
    ensures Signed(0x8000_0000) == -0x8000_0000
    ensures Signed(0xffff_ffff) == -1
  {
  }

  // ---------------------------------------------------------------------------
  // Text form: 8-4-4-4-12 hex digits separated by dashes (RFC 4122, section 3)

  predicate IsDashPosition(i: int) {
    i == 8 || i == 13 || i == 18 || i == 23
  }

  /** The shape `UUID.fromString` accepts here: 36 characters, dashes at 8, 13, 18, 23, hex digits elsewhere. */
  predicate IsUuidText(t: string) {
    |t| == 36 &&
    forall i :: 0 <= i < 36 ==> if IsDashPosition(i) then t[i] == '-' else Hex.IsHexDigit(t[i])
  }

  /** The canonical form `UUID.toString` produces: as above, with lower-case digits only. */
  predicate IsCanonicalText(t: string) {
    |t| == 36 &&
    forall i :: 0 <= i < 36 ==> if IsDashPosition(i) then t[i] == '-' else Hex.IsLowerHexDigit(t[i])
  }

  /** Where the `j`-th of the 32 digits sits in the 36-character text. */
  function DigitPosition(j: int): int {
    j + (if j < 8 then 0 else if j < 12 then 1 else if j < 16 then 2 else if j < 20 then 3 else 4)
  }

  /** The 32 digits of a 36-character text, dashes dropped. */
  function Digits(t: string): (h: string)
    requires |t| == 36
    ensures |h| == 32
    ensures forall j :: 0 <= j < 32 ==> h[j] == t[DigitPosition(j)]
  {
    t[..8] + t[9..13] + t[14..18] + t[19..23] + t[24..]
  }

  /** 32 digits laid out in groups of 8, 4, 4, 4 and 12. */
  function Layout(h: string): (t: string)
    requires |h| == 32
    ensures |t| == 36
    ensures forall i :: 0 <= i < 36 && IsDashPosition(i) ==> t[i] == '-'
    ensures forall j :: 0 <= j < 32 ==> t[DigitPosition(j)] == h[j]
  {
    h[..8] + "-" + h[8..12] + "-" + h[12..16] + "-" + h[16..20] + "-" + h[20..]
  }

  /** Every position of the text is a dash position or the position of a digit. */
  lemma PositionsCovered(i: int)
    requires 0 <= i < 36 && !IsDashPosition(i)
    ensures exists j :: 0 <= j < 32 && DigitPosition(j) == i
  {
    var j := if i < 8 then i else if i < 13 then i - 1 else if i < 18 then i - 2 else if i < 23 then i - 3 else i - 4;
    assert DigitPosition(j) == i;
  }

  lemma {:induction false} LayoutOfDigits(t: string)
    requires IsUuidText(t)
    ensures Hex.AllHex(Digits(t)) && Layout(Digits(t)) == t
  {
    var u := Layout(Digits(t));
    forall i | 0 <= i < 36 ensures u[i] == t[i] {
      if !IsDashPosition(i) {
        PositionsCovered(i);
      }
    }
  }

  lemma {:induction false} CanonicalLayout(h: string)
    requires |h| == 32 && Hex.AllLowerHex(h)
    ensures IsCanonicalText(Layout(h)) && Digits(Layout(h)) == h
  {
    var t := Layout(h);
    forall i | 0 <= i < 36 && !IsDashPosition(i) ensures Hex.IsLowerHexDigit(t[i]) {
      PositionsCovered(i);
    }
  }

  /** `toString()`: the canonical lower-case text of the wrapped UUID. */
  function ToString(id: ProductId): (t: string)
    ensures IsCanonicalText(t)
  {
    Hex.Pow16Of16();
    var h := Hex.Encode(id.value.msb, 16) + Hex.Encode(id.value.lsb, 16);
    CanonicalLayout(h);
    Layout(h)
  }

  /** `ProductId.of(String)`: parses the dashed hex form; anything else is rejected. */
  function Of(t: string): (r: Result<ProductId, IdError>)
    ensures r.Success? <==> IsUuidText(t)
    ensures r.Failure? ==> r.error == MalformedText
  {
    if IsUuidText(t) then
      var h := Digits(t);
      LayoutOfDigits(t);
      Hex.Pow16Of16();
      Success(ProductId(Uuid(Hex.Decode(h[..16]), Hex.Decode(h[16..]))))
    else
      Failure(MalformedText)
  }

  /** Parsing the text of any id gives that id back. */
  lemma {:induction false} OfToString(id: ProductId)
    ensures Of(ToString(id)) == Success(id)
  {
    Hex.Pow16Of16();
    var hi := Hex.Encode(id.value.msb, 16);
    var lo := Hex.Encode(id.value.lsb, 16);
    var h := hi + lo;
    CanonicalLayout(h);
    assert h[..16] == hi && h[16..] == lo;
    Hex.DecodeEncode(id.value.msb, 16);
    Hex.DecodeEncode(id.value.lsb, 16);
  }

  /** The digits of canonical text are lower-case hex digits. */
  lemma {:induction false} CanonicalDigits(t: string)
    requires IsCanonicalText(t)
    ensures Hex.AllLowerHex(Digits(t))
  {
    var h := Digits(t);
    forall j | 0 <= j < 32 ensures Hex.IsLowerHexDigit(h[j]) {
      assert h[j] == t[DigitPosition(j)];
      assert !IsDashPosition(DigitPosition(j));
    }
  }

  /** Canonical text survives a parse followed by `toString()` unchanged. */
  lemma {:induction false} ToStringOf(t: string)
    requires IsCanonicalText(t)
    ensures Of(t).Success? && ToString(Of(t).value) == t
  {
    assert IsUuidText(t);
    var h := Digits(t);
    LayoutOfDigits(t);
    CanonicalDigits(t);
    var hi, lo := h[..16], h[16..];
    assert Hex.AllLowerHex(hi) && Hex.AllLowerHex(lo);
    Hex.EncodeDecode(hi);
    Hex.EncodeDecode(lo);
    Hex.Pow16Of16();
    var id := ProductId(Uuid(Hex.Decode(hi), Hex.Decode(lo)));
    assert Of(t) == Success(id);
    assert hi + lo == h;
    assert Hex.Encode(id.value.msb, 16) + Hex.Encode(id.value.lsb, 16) == h;
  }

  /** Two ids have the same text exactly when they are equal. */
  lemma TextDeterminesId(x: ProductId, y: ProductId)
    ensures ToString(x) == ToString(y) <==> x == y
  {
    OfToString(x);
    OfToString(y);
  }

  /** `of("invalid-uuid")` is rejected (ProductIdTest). */
  lemma RejectsInvalidUuid()
    ensures Of("invalid-uuid") == Failure(MalformedText)
  {
  }

  /** `of(123456789L).toLong()` is 123456789 (ProductIdTest). */
  lemma LongRoundTripSample()
    ensures ToLong(OfLong(123456789)) == 123456789
  {
  }

  /** The sample UUID of ProductIdTest parses and prints back unchanged. */
  lemma SampleTextRoundTrip()
    ensures Of("123e4567-e89b-12d3-a456-426614174000").Success?
    ensures ToString(Of("123e4567-e89b-12d3-a456-426614174000").value) == "123e4567-e89b-12d3-a456-426614174000"
  {
    ToStringOf("123e4567-e89b-12d3-a456-426614174000");
  }
}
