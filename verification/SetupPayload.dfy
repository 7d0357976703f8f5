/** The setup payload of an accessory (`Accessory.setupURI`): eight pincode digits, a category and the
    "supports IP" flag packed into an integer, written in base 36 and padded with zeros. */
module SetupPayload {
  import opened Wrappers

  const POW31 := 0x8000_0000
  const POW32 := 0x1_0000_0000
  const SUPPORTS_IP := 0x1000_0000
  const PREFIX := "X-HM://"

  type Pincode = n: nat | n < 100_000_000

  /** `x | 1 << bit`, for the power of two `p == 1 << bit`. */
  function SetBit(x: nat, p: nat): nat
    requires p > 0
  {
    if x / p % 2 == 1 then x else x + p
  }

  /** The 64-bit buffer read back as one number. */
  function Payload(pin: Pincode, category: nat): nat {
    var low := SetBit(pin, SUPPORTS_IP);
    var low' := if category % 2 == 1 then SetBit(low, POW31) else low;
    low' + category / 2 * POW32
  }

  function DigitChar(d: nat): char
    requires d < 36
  {
    if d < 10 then '0' + d as char else 'A' + (d - 10) as char
  }

  function CharDigit(c: char): Option<nat> {
    if '0' <= c <= '9' then Some(c as nat - '0' as nat)
    else if 'A' <= c <= 'Z' then Some(c as nat - 'A' as nat + 10)
    else None
  }

  /** `n.toString(36).toUpperCase()`. */
  function Base36(n: nat): string {
    if n < 36 then [DigitChar(n)] else Base36(n / 36) + [DigitChar(n % 36)]
  }

  /** The number a base 36 numeral stands for; any leading zeros are ignored. */
  function Parse36(s: string): Option<nat> {
    if s == "" then Some(0)
    else
      match (Parse36(s[..|s| - 1]), CharDigit(s[|s| - 1]))
      case (Some(n), Some(d)) => Some(n * 36 + d)
      case _ => None
  }

  function Zeros(k: nat): string {
    seq(k, _ => '0')
  }

  function Pow36(k: nat): nat {
    if k == 0 then 1 else 36 * Pow36(k - 1)
  }

  lemma DigitRoundTrip(d: nat)
    requires d < 36
    ensures CharDigit(DigitChar(d)) == Some(d)
  {
  }

  lemma {:induction false} Base36Parses(n: nat)
    ensures Parse36(Base36(n)) == Some(n)
  {
    var s := Base36(n);
    DigitRoundTrip(n % 36);
    if n >= 36 {
      Base36Parses(n / 36);
      assert s[..|s| - 1] == Base36(n / 36);
    } else {
      assert s[..0] == "";
    }
  }

  lemma {:induction false} ZerosParse(k: nat, s: string)
    ensures Parse36(Zeros(k) + s) == Parse36(s)
  {
    if s == "" {
      if k > 0 {
        ZerosParse(k - 1, "");
        assert (Zeros(k) + s)[..k - 1] == Zeros(k - 1) + "";
      }
    } else {
      ZerosParse(k, s[..|s| - 1]);
      assert (Zeros(k) + s)[..k + |s| - 1] == Zeros(k) + s[..|s| - 1];
    }
  }

  /** A numeral has at most `k` digits exactly when its number is below 36 to the `k`. */
  lemma {:induction false} Base36Length(n: nat, k: nat)
    requires k >= 1
    ensures |Base36(n)| >= 1
    ensures |Base36(n)| <= k <==> n < Pow36(k)
  {
    if n >= 36 && k > 1 {
      Base36Length(n / 36, k - 1);
    } else if n >= 36 {
      Base36Length(n / 36, 1);
      assert Pow36(1) == 36;
    } else {
      PowPositive(k - 1);
    }
  }

  lemma {:induction false} PowPositive(k: nat)
    ensures Pow36(k) >= 1
  {
    if k > 0 { PowPositive(k - 1); }
  }

  lemma Powers()
    ensures Pow36(6) == 2_176_782_336 && Pow36(8) == 2_821_109_907_456 && Pow36(9) == 101_559_956_668_416
  {
    assert Pow36(2) == 1_296;
    assert Pow36(4) == 1_679_616;
    assert Pow36(6) == 2_176_782_336;
  }

  /** The numeral is 9 characters long after padding exactly when it had seven, eight or nine digits before. */
  function PaddedLength(digits: nat): nat {
    if digits >= 9 then digits else digits + (9 - digits) / 2 + 1
  }

  /** The loop that pads compares its counter with a bound that shrinks as it pads, so it adds
      `(9 - digits) / 2 + 1` zeros, not `9 - digits`. */
  method Pad(numeral: string) returns (padded: string)
    ensures padded == Zeros(PaddedLength(|numeral|) - |numeral|) + numeral
  {
    padded := numeral;
    if |padded| != 9 {
      var i := 0;
      while i <= 9 - |padded|
        invariant 0 <= i && padded == Zeros(i) + numeral
        invariant i > 0 ==> 2 * i <= 11 - |numeral|
        decreases 9 - |padded| - i
      {
        padded := "0" + padded;
        i := i + 1;
      }
    }
  }

  method Encode(pin: Pincode, category: nat) returns (encoded: string)
    ensures |encoded| == PaddedLength(|Base36(Payload(pin, category))|)
    ensures Parse36(encoded) == Some(Payload(pin, category))
  {
    var numeral := Base36(Payload(pin, category));
    encoded := Pad(numeral);
    Base36Parses(Payload(pin, category));
    ZerosParse(PaddedLength(|numeral|) - |numeral|, numeral);
  }

  /** For every pincode, the payload has nine characters exactly when the category is defined (at least 1) and
      the number still fits in nine digits. */
  lemma NineCharactersIff(pin: Pincode, category: nat)
    ensures PaddedLength(|Base36(Payload(pin, category))|) == 9 <==> 1 <= category && Payload(pin, category) < Pow36(9)
  {
    Powers();
    Base36Length(Payload(pin, category), 6);
    Base36Length(Payload(pin, category), 9);
  }

  /** Every category of the specification (1 to 36) meets the condition; the numeral then has seven digits. */
  lemma DefinedCategoriesFit(pin: Pincode, category: nat)
    requires 1 <= category <= 36
    ensures |Base36(Payload(pin, category))| == 7
    ensures PaddedLength(|Base36(Payload(pin, category))|) == 9
  {
    Powers();
    assert Pow36(7) == 36 * Pow36(6);
    Base36Length(Payload(pin, category), 6);
    Base36Length(Payload(pin, category), 7);
  }

  /** What a controller reads out of a payload. */
  function Decode(payload: nat): (nat, nat) {
    (payload % POW32 % SUPPORTS_IP, payload / POW32 * 2 + payload % POW32 / POW31)
  }

  /** Decoding recovers pincode and category, so no two inputs share a payload. */
  lemma DecodeRecovers(pin: Pincode, category: nat)
    ensures Decode(Payload(pin, category)) == (pin, category)
  {
    var flag := if category % 2 == 1 then POW31 else 0;
    assert Payload(pin, category) == pin + SUPPORTS_IP + flag + category / 2 * POW32;
    assert Payload(pin, category) % POW32 == pin + SUPPORTS_IP + flag;
  }

  lemma PayloadInjective(p: Pincode, c: nat, p': Pincode, c': nat)
    requires Payload(p, c) == Payload(p', c')
    ensures p == p' && c == c'
  {
    DecodeRecovers(p, c);
    DecodeRecovers(p', c');
  }

  /** The accessory remembers its URI once it has been built. */
  class Accessory {
    const pin: Pincode
    const category: nat
    const setupId: string
    var setupUri: Option<string>

    ghost predicate Valid()
      reads this
    {
      setupUri.Some? ==> IsUriFor(setupUri.value, pin, category, setupId)
    }

    constructor (pin: Pincode, category: nat, setupId: string)
      ensures Valid() && setupUri == None
      ensures this.pin == pin && this.category == category && this.setupId == setupId
    {
      this.pin, this.category, this.setupId, setupUri := pin, category, setupId, None;
    }

    method SetupUri() returns (uri: string)
      requires Valid()
      modifies this
      ensures Valid() && setupUri == Some(uri)
      ensures old(setupUri).Some? ==> uri == old(setupUri).value
    {
      if setupUri.Some? {
        return setupUri.value;
      }
      var encoded := Encode(pin, category);
      uri := PREFIX + encoded + setupId;
      assert uri[|PREFIX|..|PREFIX| + |encoded|] == encoded;
      assert uri[|PREFIX| + |encoded|..] == setupId;
      setupUri := Some(uri);
    }
  }

  /** A URI whose payload part decodes to the given pincode and category. */
  ghost predicate IsUriFor(uri: string, pin: Pincode, category: nat, setupId: string) {
    var width := PaddedLength(|Base36(Payload(pin, category))|);
    && |uri| == |PREFIX| + width + |setupId|
    && PREFIX <= uri
    && uri[|PREFIX| + width..] == setupId
    && Parse36(uri[|PREFIX|..|PREFIX| + width]) == Some(Payload(pin, category))
  }

  /** For defined categories a reader splits the URI at fixed positions and recovers everything in it. */
  lemma UriRoundTrip(uri: string, pin: Pincode, category: nat, setupId: string)
    requires 1 <= category <= 36 && IsUriFor(uri, pin, category, setupId)
    ensures |uri| == 16 + |setupId| && uri[16..] == setupId
    ensures Parse36(uri[7..16]).Some? && Decode(Parse36(uri[7..16]).value) == (pin, category)
  {
    DefinedCategoriesFit(pin, category);
    DecodeRecovers(pin, category);
  }
}
