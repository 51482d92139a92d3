/** The payment and x402-protocol rule sets: primitive format rules (network
    names, CAIP-2 strings, addresses, hashes, signatures, prices, the
    payment header) and the composite records built from them. Only the
    textual shape is checked; no signature or address is verified
    cryptographically. */
module Payment {
  import opened Wrappers
  import opened Values
  import opened Patterns
  import opened Rules
  import opened RuleLaws

  // ---------------------------------------------------------------------
  // The regular expressions
  // ---------------------------------------------------------------------

  /** `^eip155:\d+$` */
  const Caip2Re: Re := Cat(Lit("eip155:", false), Cat(Run(Digit, 1, None), End))
  /** `^0x[a-fA-F0-9]{40}$` */
  const AddressRe: Re := Cat(Lit("0x", false), Cat(Run(Hex, 40, Some(40)), End))
  /** `^0x[a-fA-F0-9]{64}$` */
  const TxHashRe: Re := Cat(Lit("0x", false), Cat(Run(Hex, 64, Some(64)), End))
  /** `^0x[a-fA-F0-9]+$` */
  const SignatureRe: Re := Cat(Lit("0x", false), Cat(Run(Hex, 1, None), End))
  /** `^x402\s+` with the `i` flag */
  const HeaderRe: Re := Cat(Lit("x402", true), Run(Space, 1, None))
  /** `^\d+(\.\d+)?$` */
  const PriceTextRe: Re :=
    Cat(Run(Digit, 1, None), Cat(Maybe(Cat(Lit(".", false), Run(Digit, 1, None))), End))

  // ---------------------------------------------------------------------
  // What each pattern is meant to accept, stated without patterns
  // ---------------------------------------------------------------------

  predicate AllHexFrom(s: string, i: nat) {
    forall k :: i <= k < |s| ==> IsHexDigit(s[k])
  }

  predicate Digits(t: string) {
    |t| >= 1 && forall k :: 0 <= k < |t| ==> IsDigit(t[k])
  }

  /** "0x" and forty hex digits of either case; no EIP-55 checksum. */
  predicate AddressShape(s: string) {
    |s| == 42 && s[..2] == "0x" && AllHexFrom(s, 2)
  }

  predicate TxHashShape(s: string) {
    |s| == 66 && s[..2] == "0x" && AllHexFrom(s, 2)
  }

  predicate SignatureShape(s: string) {
    |s| >= 3 && s[..2] == "0x" && AllHexFrom(s, 2)
  }

  predicate Caip2Shape(s: string) {
    |s| >= 8 && s[..7] == "eip155:" && Digits(s[7..])
  }

  predicate HeaderShape(s: string) {
    |s| >= 5 && (s[0] == 'x' || s[0] == 'X') && s[1..4] == "402" && IsSpace(s[4])
  }

  /** Digits, or digits, a dot and digits. */
  predicate DecimalShape(s: string) {
    Digits(s) || exists k :: 0 < k < |s| - 1 && s[k] == '.' && Digits(s[..k]) && Digits(s[k + 1..])
  }

  // ---------------------------------------------------------------------
  // The patterns accept exactly those strings
  // ---------------------------------------------------------------------

  lemma EndsCat(a: Re, b: Re, s: string, i: nat, j: nat)
    requires i <= |s|
    ensures j in Ends(Cat(a, b), s, i) <==> exists m :: i <= m <= |s| && m in Ends(a, s, i) && j in Ends(b, s, m)
  {
    assert Ends(Cat(a, b), s, i) == EndsAfter(b, s, Ends(a, s, i), i);
  }

  /** `Cat(first, Cat(second, End))` ends where `second`, begun at an end of
      `first`, reaches the end of the string. */
  lemma CatEndSound(first: Re, second: Re, s: string, j: nat)
    requires j in Ends(Cat(first, Cat(second, End)), s, 0)
    ensures j == |s|
    ensures exists m :: 0 <= m <= |s| && m in Ends(first, s, 0) && |s| in Ends(second, s, m)
  {
    EndsCat(first, Cat(second, End), s, 0, j);
    var m :| 0 <= m <= |s| && m in Ends(first, s, 0) && j in Ends(Cat(second, End), s, m);
    EndsCat(second, End, s, m, j);
    var m2 :| m <= m2 <= |s| && m2 in Ends(second, s, m) && j in Ends(End, s, m2);
    assert m2 == |s|;
  }

  lemma CatEndComplete(first: Re, second: Re, s: string, m: nat)
    requires m <= |s| && m in Ends(first, s, 0) && |s| in Ends(second, s, m)
    ensures |s| in Ends(Cat(first, Cat(second, End)), s, 0)
  {
    EndsCat(second, End, s, m, |s|);
    EndsCat(first, Cat(second, End), s, 0, |s|);
  }

  /** What a literal prefix followed by a bounded run of one class up to the
      end of the string accepts: the common form of four of the patterns. */
  predicate PrefixRunShape(t: string, cls: CharClass, lo: nat, hi: Option<nat>, s: string) {
    |s| >= |t| + lo && s[..|t|] == t && (hi.None? || |s| <= |t| + hi.value) && AllIn(cls, s[|t|..])
  }

  lemma PrefixRunSound(t: string, cls: CharClass, lo: nat, hi: Option<nat>, s: string)
    requires Matches(Cat(Lit(t, false), Cat(Run(cls, lo, hi), End)), s)
    ensures PrefixRunShape(t, cls, lo, hi, s)
  {
    var j :| j in Ends(Cat(Lit(t, false), Cat(Run(cls, lo, hi), End)), s, 0);
    CatEndSound(Lit(t, false), Run(cls, lo, hi), s, j);
    var m :| 0 <= m <= |s| && m in Ends(Lit(t, false), s, 0) && |s| in Ends(Run(cls, lo, hi), s, m);
    LitEnds(t, false, s, 0, m);
    RunEnds(cls, lo, hi, s, m, |s|);
    assert s[0..m] == s[..|t|];
    assert s[m..|s|] == s[|t|..];
  }

  lemma PrefixRunComplete(t: string, cls: CharClass, lo: nat, hi: Option<nat>, s: string)
    requires PrefixRunShape(t, cls, lo, hi, s)
    ensures Matches(Cat(Lit(t, false), Cat(Run(cls, lo, hi), End)), s)
  {
    LitEnds(t, false, s, 0, |t|);
    assert s[0..|t|] == s[..|t|];
    assert s[|t|..|s|] == s[|t|..];
    RunEnds(cls, lo, hi, s, |t|, |s|);
    CatEndComplete(Lit(t, false), Run(cls, lo, hi), s, |t|);
  }

  lemma PrefixRunMatches(t: string, cls: CharClass, lo: nat, hi: Option<nat>, s: string)
    ensures Matches(Cat(Lit(t, false), Cat(Run(cls, lo, hi), End)), s) <==> PrefixRunShape(t, cls, lo, hi, s)
  {
    if Matches(Cat(Lit(t, false), Cat(Run(cls, lo, hi), End)), s) { PrefixRunSound(t, cls, lo, hi, s); }
    if PrefixRunShape(t, cls, lo, hi, s) { PrefixRunComplete(t, cls, lo, hi, s); }
  }

  lemma AddressMatches(s: string)
    ensures Matches(AddressRe, s) <==> AddressShape(s)
  {
    PrefixRunMatches("0x", Hex, 40, Some(40), s);
    if |s| == 42 {
      assert AllIn(Hex, s[2..]) <==> AllHexFrom(s, 2) by {
        assert forall k :: 2 <= k < |s| ==> s[2..][k - 2] == s[k];
      }
    }
  }

  lemma TxHashMatches(s: string)
    ensures Matches(TxHashRe, s) <==> TxHashShape(s)
  {
    PrefixRunMatches("0x", Hex, 64, Some(64), s);
    if |s| == 66 {
      assert AllIn(Hex, s[2..]) <==> AllHexFrom(s, 2) by {
        assert forall k :: 2 <= k < |s| ==> s[2..][k - 2] == s[k];
      }
    }
  }

  lemma SignatureMatches(s: string)
    ensures Matches(SignatureRe, s) <==> SignatureShape(s)
  {
    PrefixRunMatches("0x", Hex, 1, None, s);
    if |s| >= 2 {
      assert AllIn(Hex, s[2..]) <==> AllHexFrom(s, 2) by {
        assert forall k :: 2 <= k < |s| ==> s[2..][k - 2] == s[k];
      }
    }
  }

  lemma Caip2Matches(s: string)
    ensures Matches(Caip2Re, s) <==> Caip2Shape(s)
  {
    PrefixRunMatches("eip155:", Digit, 1, None, s);
  }

  /** Membership in the ends of a literal. */
  lemma LitEnds(t: string, ic: bool, s: string, i: nat, m: nat)
    requires i <= |s|
    ensures m in Ends(Lit(t, ic), s, i) <==> m == i + |t| && m <= |s| && SameText(s[i..m], t, ic)
  {
  }

  /** Membership in the ends of a run. */
  lemma RunEnds(cls: CharClass, lo: nat, hi: Option<nat>, s: string, i: nat, m: nat)
    requires i <= |s|
    ensures m in Ends(Run(cls, lo, hi), s, i) <==>
            i + lo <= m <= |s| && (hi.None? || m <= i + hi.value) && AllIn(cls, s[i..m])
  {
  }

  lemma HeaderPrefix(s: string)
    requires |s| >= 4
    ensures SameText(s[..4], "x402", true) <==> (s[0] == 'x' || s[0] == 'X') && s[1..4] == "402"
  {
    assert forall k :: 0 <= k < 4 ==> s[..4][k] == s[k];
    if (s[0] == 'x' || s[0] == 'X') && s[1..4] == "402" {
      assert s[1] == s[1..4][0] && s[2] == s[1..4][1] && s[3] == s[1..4][2];
    }
    if SameText(s[..4], "x402", true) {
      assert Fold(s[0]) == 'x' && Fold(s[1]) == '4' && Fold(s[2]) == '0' && Fold(s[3]) == '2';
      assert s[1..4] == [s[1], s[2], s[3]];
    }
  }

  /** Where a literal followed by a run, begun at 0, can end. */
  lemma LitRunEnds(t: string, ic: bool, cls: CharClass, lo: nat, hi: Option<nat>, s: string, j: nat)
    requires j in Ends(Cat(Lit(t, ic), Run(cls, lo, hi)), s, 0)
    ensures |t| + lo <= j <= |s| && SameText(s[..|t|], t, ic) && AllIn(cls, s[|t|..j])
  {
    EndsCat(Lit(t, ic), Run(cls, lo, hi), s, 0, j);
    var m :| 0 <= m <= |s| && m in Ends(Lit(t, ic), s, 0) && j in Ends(Run(cls, lo, hi), s, m);
    LitEnds(t, ic, s, 0, m);
    RunEnds(cls, lo, hi, s, m, j);
    assert s[0..m] == s[..|t|];
  }

  lemma HeaderSound(s: string)
    requires Matches(HeaderRe, s)
    ensures HeaderShape(s)
  {
    var j :| j in Ends(HeaderRe, s, 0);
    LitRunEnds("x402", true, Space, 1, None, s, j);
    HeaderPrefix(s);
    assert s[4..j][0] == s[4];
  }

  lemma HeaderComplete(s: string)
    requires HeaderShape(s)
    ensures Matches(HeaderRe, s)
  {
    var lit := Lit("x402", true);
    var spaces := Run(Space, 1, None);
    HeaderPrefix(s);
    LitEnds("x402", true, s, 0, 4);
    assert AllIn(Space, s[4..5]);
    RunEnds(Space, 1, None, s, 4, 5);
    EndsCat(lit, spaces, s, 0, 5);
  }

  lemma HeaderMatches(s: string)
    ensures Matches(HeaderRe, s) <==> HeaderShape(s)
  {
    if Matches(HeaderRe, s) { HeaderSound(s); }
    if HeaderShape(s) { HeaderComplete(s); }
  }

  /** Where the optional fraction `\.\d+` can end. */
  lemma FracEnds(s: string, m: nat, e: nat)
    requires m <= |s|
    requires e in Ends(Cat(Lit(".", false), Run(Digit, 1, None)), s, m)
    ensures m + 2 <= e && s[m] == '.' && Digits(s[m + 1..e])
  {
    EndsCat(Lit(".", false), Run(Digit, 1, None), s, m, e);
    var m3 :| m <= m3 <= |s| && m3 in Ends(Lit(".", false), s, m) && e in Ends(Run(Digit, 1, None), s, m3);
    LitEnds(".", false, s, m, m3);
    assert s[m] == '.' by { assert s[m..m + 1][0] == s[m]; }
    RunEnds(Digit, 1, None, s, m3, e);
  }

  /** Where `Cat(Maybe(inner), End)` begun at `m` can end. */
  lemma MaybeEndEnds(inner: Re, s: string, m: nat, j: nat)
    requires m <= |s|
    requires j in Ends(Cat(Maybe(inner), End), s, m)
    ensures j == |s|
    ensures m == |s| || |s| in Ends(inner, s, m)
  {
    EndsCat(Maybe(inner), End, s, m, j);
  }

  /** Where the part after the integer digits can end. */
  lemma TailEnds(s: string, m: nat, j: nat)
    requires m <= |s|
    requires j in Ends(Cat(Maybe(Cat(Lit(".", false), Run(Digit, 1, None))), End), s, m)
    ensures j == |s|
    ensures m == |s| || (m + 2 <= |s| && s[m] == '.' && Digits(s[m + 1..]))
  {
    MaybeEndEnds(Cat(Lit(".", false), Run(Digit, 1, None)), s, m, j);
    if m != |s| {
      FracEnds(s, m, |s|);
      assert s[m + 1..|s|] == s[m + 1..];
    }
  }

  /** A match of the price pattern is digits, optionally a dot and digits. */
  lemma DecimalSound(s: string)
    requires Matches(PriceTextRe, s)
    ensures DecimalShape(s)
  {
    var j :| j in Ends(PriceTextRe, s, 0);
    var tail := Cat(Maybe(Cat(Lit(".", false), Run(Digit, 1, None))), End);
    DigitsThen(tail, s, j);
    var m :| 1 <= m <= |s| && Digits(s[..m]) && j in Ends(tail, s, m);
    TailEnds(s, m, j);
    if m == |s| {
      assert s[..m] == s;
    } else {
      assert 0 < m < |s| - 1 && s[m] == '.' && Digits(s[..m]) && Digits(s[m + 1..]);
    }
  }

  /** A match of `\d+` followed by `tail` begins with digits up to a
      position where `tail` takes over. */
  lemma DigitsThen(tail: Re, s: string, j: nat)
    requires j in Ends(Cat(Run(Digit, 1, None), tail), s, 0)
    ensures exists m :: 1 <= m <= |s| && Digits(s[..m]) && j in Ends(tail, s, m)
  {
    EndsCat(Run(Digit, 1, None), tail, s, 0, j);
    var m :| 0 <= m <= |s| && m in Ends(Run(Digit, 1, None), s, 0) && j in Ends(tail, s, m);
    RunEnds(Digit, 1, None, s, 0, m);
    assert s[0..m] == s[..m];
  }

  /** Every string of that form matches the price pattern. */
  lemma DecimalComplete(s: string)
    requires DecimalShape(s)
    ensures Matches(PriceTextRe, s)
  {
    var digits := Run(Digit, 1, None);
    var frac := Cat(Lit(".", false), digits);
    var tail := Cat(Maybe(frac), End);
    var k := if Digits(s) then |s| else var k :| 0 < k < |s| - 1 && s[k] == '.' && Digits(s[..k]) && Digits(s[k + 1..]); k;
    assert AllIn(Digit, s[0..k]) by { assert s[0..k] == s[..k]; }
    RunEnds(Digit, 1, None, s, 0, k);
    if k < |s| {
      assert s[k..k + 1] == [s[k]];
      LitEnds(".", false, s, k, k + 1);
      assert AllIn(Digit, s[k + 1..|s|]) by { assert s[k + 1..|s|] == s[k + 1..]; }
      RunEnds(Digit, 1, None, s, k + 1, |s|);
      EndsCat(Lit(".", false), digits, s, k, |s|);
    }
    assert |s| in Ends(Maybe(frac), s, k);
    EndsCat(Maybe(frac), End, s, k, |s|);
    EndsCat(digits, tail, s, 0, |s|);
  }

  lemma DecimalMatches(s: string)
    ensures Matches(PriceTextRe, s) <==> DecimalShape(s)
  {
    if Matches(PriceTextRe, s) { DecimalSound(s); }
    if DecimalShape(s) { DecimalComplete(s); }
  }

  // ---------------------------------------------------------------------
  // The rule sets
  // ---------------------------------------------------------------------

  const NetworkNames: seq<string> :=
    ["avalanche", "base", "celo", "avalanche-fuji", "base-sepolia", "celo-alfajores"]

  const NetworkSchema: Rule := Enum(NetworkNames)

  const Caip2NetworkSchema: Rule :=
    Text([Pattern(Caip2Re, "Invalid CAIP-2 network format. Expected: eip155:<chainId>")])

  const EthereumAddressSchema: Rule := Text([Pattern(AddressRe, "Invalid Ethereum address")])

  const TransactionHashSchema: Rule := Text([Pattern(TxHashRe, "Invalid transaction hash")])

  const SignatureSchema: Rule := Text([Pattern(SignatureRe, "Invalid signature format")])

  /** The `payload` of an envelope: the parameters of an EIP-3009
      `transferWithAuthorization`, checked for shape only. */
  const PayloadSchema: Rule := Object([
    Field("from", EthereumAddressSchema, Mandatory),
    Field("to", EthereumAddressSchema, Mandatory),
    Field("value", Text([MinLen(1, Some("Value is required"))]), Mandatory),
    Field("validAfter", Number([IsInt, AtLeast(0.0)]), Mandatory),
    Field("validBefore", Number([IsInt, Above(0.0)]), Mandatory),
    Field("nonce", Text([MinLen(1, Some("Nonce is required"))]), Mandatory),
    Field("network", Caip2NetworkSchema, Mandatory)
  ])

  const PaymentEnvelopeSchema: Rule := Object([
    Field("payload", PayloadSchema, Mandatory),
    Field("signature", SignatureSchema, Mandatory)
  ])

  const PaymentHeaderSchema: Rule := Text([Pattern(HeaderRe, "Payment header must start with 'x402'")])

  const PriceSchema: Rule := Union([
    Text([Pattern(PriceTextRe, "Invalid price format")]),
    Number([Above(0.0)])
  ])

  const PaymentConfigSchema: Rule := Object([
    Field("recipientAddress", EthereumAddressSchema, Mandatory),
    Field("network", NetworkSchema, Mandatory),
    Field("tokenAddress", EthereumAddressSchema, Optional),
    Field("prices", Record(PriceSchema), Mandatory)
  ])

  const RouteConfigSchema: Rule := Object([
    Field("path", Text([MinLen(1, Some("Path is required"))]), Mandatory),
    Field("price", PriceSchema, Mandatory),
    Field("description", Text([]), Optional)
  ])

  const PaymentRequestSchema: Rule := Object([
    Field("amount", PriceSchema, Mandatory),
    Field("recipient", EthereumAddressSchema, Mandatory),
    Field("network", NetworkSchema, Mandatory),
    Field("memo", Text([]), Optional),
    Field("expiresAt", Number([IsInt, Above(0.0)]), Optional)
  ])

  const PaymentVerificationSchema: Rule := Object([
    Field("envelope", PaymentEnvelopeSchema, Mandatory),
    Field("expectedAmount", Text([]), Mandatory),
    Field("expectedRecipient", EthereumAddressSchema, Mandatory),
    Field("tolerance", Number([AtLeast(0.0), AtMost(1.0)]), Defaulted(Num(0.0)))
  ])

  const TokenInfoSchema: Rule := Object([
    Field("address", EthereumAddressSchema, Mandatory),
    Field("name", Text([]), Mandatory),
    Field("symbol", Text([]), Mandatory),
    Field("decimals", Number([IsInt, AtLeast(0.0), AtMost(18.0)]), Mandatory),
    Field("chainId", Number([IsInt, Above(0.0)]), Mandatory)
  ])

  /** The fields of an EIP-712 domain separator, checked for shape only. */
  const Eip712DomainSchema: Rule := Object([
    Field("name", Text([]), Mandatory),
    Field("version", Text([]), Mandatory),
    Field("chainId", Number([IsInt, Above(0.0)]), Mandatory),
    Field("verifyingContract", EthereumAddressSchema, Mandatory)
  ])

  const SettlementRequestSchema: Rule := Object([
    Field("envelope", PaymentEnvelopeSchema, Mandatory),
    Field("privateKey", Text([]), Optional)
  ])

  const SettlementResultSchema: Rule := Object([
    Field("success", Boolean, Mandatory),
    Field("transactionHash", TransactionHashSchema, Optional),
    Field("error", Text([]), Optional),
    Field("gasUsed", Text([]), Optional)
  ])

  const PaymentErrorCodes: seq<string> := [
    "MISSING_PAYMENT", "INVALID_SIGNATURE", "INVALID_AMOUNT", "EXPIRED_PAYMENT",
    "INSUFFICIENT_BALANCE", "SETTLEMENT_FAILED", "NETWORK_MISMATCH"
  ]

  const PaymentErrorSchema: Rule := Object([
    Field("error", Text([]), Mandatory),
    Field("code", Enum(PaymentErrorCodes), Mandatory),
    Field("details", Record(Unknown), Optional)
  ])

  // ---------------------------------------------------------------------
  // What the format rules accept
  // ---------------------------------------------------------------------

  lemma EthereumAddressAccepts(v: Value, p: seq<Segment>)
    ensures Apply(EthereumAddressSchema, v, p).Ok? <==> v.Str? && AddressShape(v.s)
  {
    PatternRule(AddressRe, "Invalid Ethereum address", v, p);
    if v.Str? { AddressMatches(v.s); }
  }

  lemma TransactionHashAccepts(v: Value, p: seq<Segment>)
    ensures Apply(TransactionHashSchema, v, p).Ok? <==> v.Str? && TxHashShape(v.s)
  {
    PatternRule(TxHashRe, "Invalid transaction hash", v, p);
    if v.Str? { TxHashMatches(v.s); }
  }

  lemma SignatureAccepts(v: Value, p: seq<Segment>)
    ensures Apply(SignatureSchema, v, p).Ok? <==> v.Str? && SignatureShape(v.s)
  {
    PatternRule(SignatureRe, "Invalid signature format", v, p);
    if v.Str? { SignatureMatches(v.s); }
  }

  lemma Caip2NetworkAccepts(v: Value, p: seq<Segment>)
    ensures Apply(Caip2NetworkSchema, v, p).Ok? <==> v.Str? && Caip2Shape(v.s)
  {
    PatternRule(Caip2Re, "Invalid CAIP-2 network format. Expected: eip155:<chainId>", v, p);
    if v.Str? { Caip2Matches(v.s); }
  }

  lemma PaymentHeaderAccepts(v: Value, p: seq<Segment>)
    ensures Apply(PaymentHeaderSchema, v, p).Ok? <==> v.Str? && HeaderShape(v.s)
  {
    PatternRule(HeaderRe, "Payment header must start with 'x402'", v, p);
    if v.Str? { HeaderMatches(v.s); }
  }

  /** Every accepted address and every accepted transaction hash is also an
      accepted signature. */
  lemma AddressesAndHashesAreSignatures(v: Value, p: seq<Segment>)
    ensures Apply(EthereumAddressSchema, v, p).Ok? ==> Apply(SignatureSchema, v, p).Ok?
    ensures Apply(TransactionHashSchema, v, p).Ok? ==> Apply(SignatureSchema, v, p).Ok?
  {
    EthereumAddressAccepts(v, p);
    TransactionHashAccepts(v, p);
    SignatureAccepts(v, p);
  }

  /** The prefix alone is no CAIP-2 string: one issue, with the rule's message. */
  lemma BareCaip2Rejected(p: seq<Segment>)
    ensures Apply(Caip2NetworkSchema, Str("eip155:"), p) ==
            Err([Issue(p, InvalidString, "Invalid CAIP-2 network format. Expected: eip155:<chainId>")])
  {
    PatternRule(Caip2Re, "Invalid CAIP-2 network format. Expected: eip155:<chainId>", Str("eip155:"), p);
    Caip2Matches("eip155:");
  }

  /** A short hex string is no address: one issue at the root. */
  lemma ShortAddressRejected()
    ensures Apply(EthereumAddressSchema, Str("0xabc"), []) ==
            Err([Issue([], InvalidString, "Invalid Ethereum address")])
  {
    PatternRule(AddressRe, "Invalid Ethereum address", Str("0xabc"), []);
    AddressMatches("0xabc");
  }

  /** A price: a decimal string, or a number above 0. */
  predicate IsPrice(x: Value) {
    (x.Str? && DecimalShape(x.s)) || (x.Num? && x.n > 0.0)
  }

  /** A price is a decimal string or a positive number, and is returned
      as given. */
  lemma PriceAccepts(v: Value, p: seq<Segment>)
    ensures Apply(PriceSchema, v, p).Ok? <==> IsPrice(v)
    ensures Apply(PriceSchema, v, p).Ok? ==> Apply(PriceSchema, v, p).value == v
  {
    PatternRule(PriceTextRe, "Invalid price format", v, p);
    if v.Str? { DecimalMatches(v.s); }
    UnionOfTwo(Text([Pattern(PriceTextRe, "Invalid price format")]), Number([Above(0.0)]), v, p);
  }

  /** A rejected price reports what the first alternative that got a value
      of its own type found wrong: the price format for text, "too small"
      for a number; only other values get the union issue. */
  lemma PriceRejected(v: Value, p: seq<Segment>)
    requires !IsPrice(v)
    ensures Apply(PriceSchema, v, p) ==
            if v.Str? then Err([Issue(p, InvalidString, "Invalid price format")])
            else if v.Num? then Err([Issue(p, TooSmall, InvalidMessage)])
            else Err([Issue(p, InvalidUnion, InvalidMessage)])
  {
    PatternRule(PriceTextRe, "Invalid price format", v, p);
    if v.Str? { DecimalMatches(v.s); }
    if v.Num? { assert NumIssues([Above(0.0)], v.n, p) == [Issue(p, TooSmall, InvalidMessage)]; }
    UnionOfTwo(Text([Pattern(PriceTextRe, "Invalid price format")]), Number([Above(0.0)]), v, p);
  }

  lemma MalformedPricesRejected(p: seq<Segment>)
    ensures Apply(PriceSchema, Str(""), p) == Err([Issue(p, InvalidString, "Invalid price format")])
    ensures Apply(PriceSchema, Str("1."), p) == Err([Issue(p, InvalidString, "Invalid price format")])
    ensures Apply(PriceSchema, Str(".5"), p) == Err([Issue(p, InvalidString, "Invalid price format")])
    ensures Apply(PriceSchema, Str("-1"), p) == Err([Issue(p, InvalidString, "Invalid price format")])
  {
    assert !Digits("1.") by { assert !IsDigit("1."[1]); }
    assert !Digits(".5") by { assert !IsDigit(".5"[0]); }
    assert !Digits("-1") by { assert !IsDigit("-1"[0]); }
    PriceRejected(Str(""), p);
    PriceRejected(Str("1."), p);
    PriceRejected(Str(".5"), p);
    PriceRejected(Str("-1"), p);
  }

  lemma NetworkAccepts(v: Value, p: seq<Segment>)
    ensures Apply(NetworkSchema, v, p).Ok? <==>
            v.Str? && v.s in {"avalanche", "base", "celo", "avalanche-fuji", "base-sepolia", "celo-alfajores"}
  {
  }

  // ---------------------------------------------------------------------
  // What the composite rules accept
  // ---------------------------------------------------------------------

  predicate PayloadShape(es: seq<Entry>) {
    && TextWhere(Lookup(es, "from"), AddressShape)
    && TextWhere(Lookup(es, "to"), AddressShape)
    && TextWhere(Lookup(es, "value"), s => |s| >= 1)
    && IntWhere(Lookup(es, "validAfter"), x => x >= 0.0)
    && IntWhere(Lookup(es, "validBefore"), x => x > 0.0)
    && TextWhere(Lookup(es, "nonce"), s => |s| >= 1)
    && TextWhere(Lookup(es, "network"), Caip2Shape)
  }

  predicate EnvelopeShape(v: Value) {
    && v.Obj?
    && Lookup(v.entries, "payload").Some?
    && Lookup(v.entries, "payload").value.Obj?
    && PayloadShape(Lookup(v.entries, "payload").value.entries)
    && TextWhere(Lookup(v.entries, "signature"), SignatureShape)
  }

  lemma AddressField(name: string, es: seq<Entry>, q: seq<Segment>)
    ensures FieldOutcome(Field(name, EthereumAddressSchema, Mandatory), es, q).Ok? <==>
            TextWhere(Lookup(es, name), AddressShape)
  {
    MandatoryField(name, EthereumAddressSchema, es, q);
    if Lookup(es, name).Some? { EthereumAddressAccepts(Lookup(es, name).value, q + [Key(name)]); }
  }

  lemma NonEmptyField(name: string, msg: string, es: seq<Entry>, q: seq<Segment>)
    ensures FieldOutcome(Field(name, Text([MinLen(1, Some(msg))]), Mandatory), es, q).Ok? <==>
            TextWhere(Lookup(es, name), s => |s| >= 1)
  {
    MandatoryField(name, Text([MinLen(1, Some(msg))]), es, q);
  }

  lemma IntField(name: string, c: NumCheck, ok: real -> bool, es: seq<Entry>, q: seq<Segment>)
    requires forall x :: NumPasses(c, x) <==> ok(x)
    ensures FieldOutcome(Field(name, Number([IsInt, c]), Mandatory), es, q).Ok? <==>
            IntWhere(Lookup(es, name), ok)
  {
    MandatoryField(name, Number([IsInt, c]), es, q);
    var o := Lookup(es, name);
    if o.Some? && o.value.Num? {
      assert NumIssues([IsInt, c], o.value.n, q + [Key(name)]) == [] <==>
             NumPasses(IsInt, o.value.n) && NumPasses(c, o.value.n) by {
        var l := [IsInt, c];
        assert forall i :: 0 <= i < |l| ==> l[i] == IsInt || l[i] == c;
      }
    }
  }

  /** The two integer bounds of the payload's validity window. */
  lemma ValidAfterAccepted(es: seq<Entry>, q: seq<Segment>)
    ensures FieldOutcome(PayloadSchema.fields[3], es, q).Ok? <==> IntWhere(Lookup(es, "validAfter"), x => x >= 0.0)
  {
    IntField("validAfter", AtLeast(0.0), x => x >= 0.0, es, q);
  }

  lemma ValidBeforeAccepted(es: seq<Entry>, q: seq<Segment>)
    ensures FieldOutcome(PayloadSchema.fields[4], es, q).Ok? <==> IntWhere(Lookup(es, "validBefore"), x => x > 0.0)
  {
    IntField("validBefore", Above(0.0), x => x > 0.0, es, q);
  }

  /** The text fields of the payload, each on its own. */
  lemma PayloadTextFields(es: seq<Entry>, q: seq<Segment>)
    ensures FieldOutcome(PayloadSchema.fields[0], es, q).Ok? <==> TextWhere(Lookup(es, "from"), AddressShape)
    ensures FieldOutcome(PayloadSchema.fields[1], es, q).Ok? <==> TextWhere(Lookup(es, "to"), AddressShape)
    ensures FieldOutcome(PayloadSchema.fields[2], es, q).Ok? <==> TextWhere(Lookup(es, "value"), s => |s| >= 1)
    ensures FieldOutcome(PayloadSchema.fields[5], es, q).Ok? <==> TextWhere(Lookup(es, "nonce"), s => |s| >= 1)
    ensures FieldOutcome(PayloadSchema.fields[6], es, q).Ok? <==> TextWhere(Lookup(es, "network"), Caip2Shape)
  {
    AddressField("from", es, q);
    AddressField("to", es, q);
    NonEmptyField("value", "Value is required", es, q);
    NonEmptyField("nonce", "Nonce is required", es, q);
    NetworkField(es, q);
  }

  lemma NetworkField(es: seq<Entry>, q: seq<Segment>)
    ensures FieldOutcome(Field("network", Caip2NetworkSchema, Mandatory), es, q).Ok? <==>
            TextWhere(Lookup(es, "network"), Caip2Shape)
  {
    MandatoryField("network", Caip2NetworkSchema, es, q);
    if Lookup(es, "network").Some? {
      Caip2NetworkAccepts(Lookup(es, "network").value, q + [Key("network")]);
    }
  }

  lemma PayloadAccepts(x: Value, q: seq<Segment>)
    ensures Apply(PayloadSchema, x, q).Ok? <==> x.Obj? && PayloadShape(x.entries)
  {
    if x.Obj? {
      var fs := PayloadSchema.fields;
      PayloadTextFields(x.entries, q);
      ValidAfterAccepted(x.entries, q);
      ValidBeforeAccepted(x.entries, q);
      ObjectOfSeven(fs[0], fs[1], fs[2], fs[3], fs[4], fs[5], fs[6], x.entries, q);
    }
  }

  /** An envelope is accepted exactly when both addresses are addresses,
      value and nonce are non-empty, validAfter is an integer at least 0,
      validBefore an integer above 0, the network a CAIP-2 string and the
      signature a signature. */
  lemma PaymentEnvelopeAccepts(v: Value, p: seq<Segment>)
    ensures Apply(PaymentEnvelopeSchema, v, p).Ok? <==> EnvelopeShape(v)
  {
    if v.Obj? {
      var fs := PaymentEnvelopeSchema.fields;
      ObjectOfTwo(fs[0], fs[1], v.entries, p);
      PayloadField(v.entries, p);
      SignatureField(v.entries, p);
    }
  }

  lemma PayloadField(es: seq<Entry>, p: seq<Segment>)
    ensures FieldOutcome(Field("payload", PayloadSchema, Mandatory), es, p).Ok? <==>
            var pl := Lookup(es, "payload");
            pl.Some? && pl.value.Obj? && PayloadShape(pl.value.entries)
  {
    MandatoryField("payload", PayloadSchema, es, p);
    if Lookup(es, "payload").Some? { PayloadAccepts(Lookup(es, "payload").value, p + [Key("payload")]); }
  }

  lemma SignatureField(es: seq<Entry>, p: seq<Segment>)
    ensures FieldOutcome(Field("signature", SignatureSchema, Mandatory), es, p).Ok? <==>
            TextWhere(Lookup(es, "signature"), SignatureShape)
  {
    MandatoryField("signature", SignatureSchema, es, p);
    if Lookup(es, "signature").Some? {
      SignatureAccepts(Lookup(es, "signature").value, p + [Key("signature")]);
    }
  }

  lemma TooSmallIssue(x: real, path: seq<Segment>)
    requires IsInteger(x) && x <= 0.0
    ensures NumIssues([IsInt, Above(0.0)], x, path) == [Issue(path, TooSmall, InvalidMessage)]
  {
  }

  /** A non-positive integer in `validBefore` fails that field alone. */
  lemma ValidBeforeField(es: seq<Entry>, x: real, q: seq<Segment>)
    requires IsInteger(x) && x <= 0.0
    ensures FieldOutcome(PayloadSchema.fields[4], Put(es, "validBefore", Num(x)), q) ==
            Err([Issue(q + [Key("validBefore")], TooSmall, InvalidMessage)])
  {
    TooSmallIssue(x, q + [Key("validBefore")]);
  }

  lemma PayloadNamesDistinct()
    ensures DistinctNames(PayloadSchema.fields) && DistinctNames(PaymentEnvelopeSchema.fields)
  {
  }

  /** A payload that differs from an accepted one only in a non-positive
      integer `validBefore` is rejected with exactly one issue, "too small",
      at `validBefore`. */
  lemma PayloadValidBeforeRejected(es: seq<Entry>, x: real, q: seq<Segment>)
    requires PayloadShape(es)
    requires IsInteger(x) && x <= 0.0
    ensures Apply(PayloadSchema, Obj(Put(es, "validBefore", Num(x))), q) ==
            Err([Issue(q + [Key("validBefore")], TooSmall, InvalidMessage)])
  {
    PayloadAccepts(Obj(es), q);
    PayloadNamesDistinct();
    ValidBeforeField(es, x, q);
    ReplaceField(PayloadSchema.fields, es, q, 4, Num(x));
  }

  /** A rejected payload fails the envelope's `payload` field alone. */
  lemma EnvelopePayloadField(es: seq<Entry>, w: Value, p: seq<Segment>)
    requires Apply(PayloadSchema, w, p + [Key("payload")]).Err?
    ensures FieldOutcome(PaymentEnvelopeSchema.fields[0], Put(es, "payload", w), p) ==
            Err(Apply(PayloadSchema, w, p + [Key("payload")]).error)
  {
    assert Lookup(Put(es, "payload", w), "payload") == Some(w);
  }

  /** Replacing the payload of an accepted envelope by a rejected one gives
      exactly the payload's issues. */
  lemma EnvelopePayloadRejected(v: Value, w: Value, p: seq<Segment>, e: seq<Issue>)
    requires EnvelopeShape(v)
    requires Apply(PayloadSchema, w, p + [Key("payload")]) == Err(e)
    ensures Apply(PaymentEnvelopeSchema, Obj(Put(v.entries, "payload", w)), p) == Err(e)
  {
    PaymentEnvelopeAccepts(v, p);
    PayloadNamesDistinct();
    EnvelopePayloadField(v.entries, w, p);
    ReplaceField(PaymentEnvelopeSchema.fields, v.entries, p, 0, w);
  }

  /** The same, seen from the envelope: the issue's path runs through
      `payload`. */
  lemma ValidBeforeOutOfRange(v: Value, x: real, p: seq<Segment>)
    requires EnvelopeShape(v)
    requires IsInteger(x) && x <= 0.0
    ensures var pl := Lookup(v.entries, "payload").value;
            var bad := Obj(Put(v.entries, "payload", Obj(Put(pl.entries, "validBefore", Num(x)))));
            Apply(PaymentEnvelopeSchema, bad, p) ==
            Err([Issue(p + [Key("payload")] + [Key("validBefore")], TooSmall, InvalidMessage)])
  {
    var pes := Lookup(v.entries, "payload").value.entries;
    var q := p + [Key("payload")];
    PayloadValidBeforeRejected(pes, x, q);
    EnvelopePayloadRejected(v, Obj(Put(pes, "validBefore", Num(x))), p,
      [Issue(q + [Key("validBefore")], TooSmall, InvalidMessage)]);
  }

  /** In an accepted verification request the tolerance is a number in
      [0, 1]: the given one, or 0 when it was absent. */
  lemma ToleranceDefault(v: Value, p: seq<Segment>)
    requires Apply(PaymentVerificationSchema, v, p).Ok?
    ensures v.Obj?
    ensures var w := Apply(PaymentVerificationSchema, v, p).value;
            var t := Lookup(w.entries, "tolerance");
            && w.Obj? && t.Some? && t.value.Num? && 0.0 <= t.value.n <= 1.0
            && (Lookup(v.entries, "tolerance").None? ==> t.value.n == 0.0)
            && (Lookup(v.entries, "tolerance").Some? ==> t == Lookup(v.entries, "tolerance"))
  {
    var fs := PaymentVerificationSchema.fields;
    assert v.Obj?;
    ObjectOutput(fs, v.entries, p, 3);
    ToleranceField(v.entries, p);
  }

  /** The tolerance: a number in [0, 1], 0 by default. */
  lemma ToleranceField(es: seq<Entry>, p: seq<Segment>)
    ensures var o := FieldOutcome(PaymentVerificationSchema.fields[3], es, p);
            o.Ok? ==> && o.value == Some(Lookup(es, "tolerance").GetOr(Num(0.0)))
                      && o.value.value.Num? && 0.0 <= o.value.value.n <= 1.0
  {
    var checks := [AtLeast(0.0), AtMost(1.0)];
    assert PaymentVerificationSchema.fields[3] == Field("tolerance", Number(checks), Defaulted(Num(0.0)));
    NumberDefaultField("tolerance", checks, 0.0, es, p);
    var o := FieldOutcome(PaymentVerificationSchema.fields[3], es, p);
    if o.Ok? {
      assert NumPasses(checks[0], o.value.value.n) && NumPasses(checks[1], o.value.value.n);
    }
  }

  /** An accepted token description has integer decimals in [0, 18] and a
      positive integer chain id. */
  lemma TokenInfoRanges(v: Value, p: seq<Segment>)
    requires Apply(TokenInfoSchema, v, p).Ok?
    ensures v.Obj?
    ensures IntWhere(Lookup(v.entries, "decimals"), d => 0.0 <= d <= 18.0)
    ensures IntWhere(Lookup(v.entries, "chainId"), c => c > 0.0)
  {
    var fs := TokenInfoSchema.fields;
    assert v.Obj?;
    ObjectAccepts(fs, v.entries, p);
    var d := [IsInt, AtLeast(0.0), AtMost(18.0)];
    assert fs[3] == Field("decimals", Number(d), Mandatory);
    assert FieldOutcome(fs[3], v.entries, p).Ok?;
    MandatoryField("decimals", Number(d), v.entries, p);
    var x := Lookup(v.entries, "decimals").value;
    assert NumIssues(d, x.n, p + [Key("decimals")]) == [];
    assert NumPasses(d[0], x.n) && NumPasses(d[1], x.n) && NumPasses(d[2], x.n);
    var c := [IsInt, Above(0.0)];
    assert fs[4] == Field("chainId", Number(c), Mandatory);
    assert FieldOutcome(fs[4], v.entries, p).Ok?;
    MandatoryField("chainId", Number(c), v.entries, p);
    var y := Lookup(v.entries, "chainId").value;
    assert NumIssues(c, y.n, p + [Key("chainId")]) == [];
    assert NumPasses(c[0], y.n) && NumPasses(c[1], y.n);
  }

  /** Every entry of an accepted configuration's price table is a price. */
  lemma ConfigPrices(v: Value, p: seq<Segment>)
    requires Apply(PaymentConfigSchema, v, p).Ok?
    ensures v.Obj?
    ensures var prices := Lookup(v.entries, "prices");
            && prices.Some? && prices.value.Obj?
            && forall i :: 0 <= i < |prices.value.entries| ==> IsPrice(prices.value.entries[i].val)
  {
    var fs := PaymentConfigSchema.fields;
    assert v.Obj?;
    ObjectAccepts(fs, v.entries, p);
    assert fs[3] == Field("prices", Record(PriceSchema), Mandatory);
    assert FieldOutcome(fs[3], v.entries, p).Ok?;
    MandatoryField("prices", Record(PriceSchema), v.entries, p);
    var q := p + [Key("prices")];
    var ps := Lookup(v.entries, "prices").value.entries;
    RecordAccepts(PriceSchema, ps, q);
    forall i | 0 <= i < |ps|
      ensures IsPrice(ps[i].val)
    {
      PriceAccepts(ps[i].val, q + [Key(ps[i].key)]);
    }
  }

  /** An accepted error response carries one of the seven codes. */
  lemma PaymentErrorCodeAccepts(v: Value, p: seq<Segment>)
    requires Apply(PaymentErrorSchema, v, p).Ok?
    ensures v.Obj?
    ensures TextWhere(Lookup(v.entries, "code"), c => c in {
              "MISSING_PAYMENT", "INVALID_SIGNATURE", "INVALID_AMOUNT", "EXPIRED_PAYMENT",
              "INSUFFICIENT_BALANCE", "SETTLEMENT_FAILED", "NETWORK_MISMATCH"})
  {
    var fs := PaymentErrorSchema.fields;
    assert v.Obj?;
    ObjectAccepts(fs, v.entries, p);
    assert FieldOutcome(fs[1], v.entries, p).Ok?;
    MandatoryField("code", Enum(PaymentErrorCodes), v.entries, p);
  }

  /** An error response whose only fault is an unknown code is rejected
      with exactly one issue, at `code`. */
  lemma BogusErrorCodeRejected(es: seq<Entry>, c: string, p: seq<Segment>)
    requires TextWhere(Lookup(es, "error"), s => true)
    requires Lookup(es, "code") == Some(Str(c)) && c !in PaymentErrorCodes
    requires AbsentOr(Lookup(es, "details"), (x: Value) => x.Obj?)
    ensures Apply(PaymentErrorSchema, Obj(es), p) ==
            Err([Issue(p + [Key("code")], InvalidEnumValue, InvalidMessage)])
  {
    var fs := PaymentErrorSchema.fields;
    assert Apply(Enum(PaymentErrorCodes), Str(c), p + [Key("code")]) ==
           Err([Issue(p + [Key("code")], InvalidEnumValue, InvalidMessage)]);
    assert FieldOutcome(fs[1], es, p) == Err([Issue(p + [Key("code")], InvalidEnumValue, InvalidMessage)]);
    TextField("error", es, p);
    DetailsField(es, p);
    forall i | 0 <= i < |fs| && i != 1 ensures FieldOutcome(fs[i], es, p).Ok? {
      if i == 0 {} else {}
    }
    OneFieldFails(fs, es, p, 1);
  }

  /** For instance, the code "BOGUS". */
  lemma BogusCodeExample()
    ensures Apply(PaymentErrorSchema, Obj([Entry("error", Str("x")), Entry("code", Str("BOGUS"))]), []) ==
            Err([Issue([Key("code")], InvalidEnumValue, InvalidMessage)])
  {
    var es := [Entry("error", Str("x")), Entry("code", Str("BOGUS"))];
    assert Lookup(es, "error") == Some(Str("x"));
    assert Lookup(es, "code") == Some(Str("BOGUS"));
    assert Lookup(es, "details") == None;
    assert [] + [Key("code")] == [Key("code")];
    BogusErrorCodeRejected(es, "BOGUS", []);
  }

  /** A price is never optional by accident: dropping it from an accepted
      route or request gives one union issue at its key, because both
      alternatives of the price rule fail on the type of an absent value. */
  lemma MissingPriceRejected(es: seq<Entry>, p: seq<Segment>)
    ensures Apply(RouteConfigSchema, Obj(es), p).Ok? ==>
            Apply(RouteConfigSchema, Obj(Without(es, "price")), p) ==
            Err([Issue(p + [Key("price")], InvalidUnion, InvalidMessage)])
    ensures Apply(PaymentRequestSchema, Obj(es), p).Ok? ==>
            Apply(PaymentRequestSchema, Obj(Without(es, "amount")), p) ==
            Err([Issue(p + [Key("amount")], InvalidUnion, InvalidMessage)])
  {
    assert !AcceptsAbsent(PriceSchema) by {
      assert forall i :: 0 <= i < 2 ==> !AcceptsAbsent(PriceSchema.alternatives[i]);
    }
    if Apply(RouteConfigSchema, Obj(es), p).Ok? {
      DropMandatory(RouteConfigSchema.fields, es, p, 1);
    }
    if Apply(PaymentRequestSchema, Obj(es), p).Ok? {
      DropMandatory(PaymentRequestSchema.fields, es, p, 0);
    }
  }

  /** A transaction hash in an accepted settlement result, when present, is
      a hash. */
  lemma SettlementHash(v: Value, p: seq<Segment>)
    requires Apply(SettlementResultSchema, v, p).Ok?
    ensures v.Obj?
    ensures Lookup(v.entries, "transactionHash").Some? ==>
            TextWhere(Lookup(v.entries, "transactionHash"), TxHashShape)
  {
    var fs := SettlementResultSchema.fields;
    assert v.Obj?;
    ObjectAccepts(fs, v.entries, p);
    assert FieldOutcome(fs[1], v.entries, p).Ok?;
    OptionalField("transactionHash", TransactionHashSchema, v.entries, p);
    if Lookup(v.entries, "transactionHash").Some? {
      TransactionHashAccepts(Lookup(v.entries, "transactionHash").value, p + [Key("transactionHash")]);
    }
  }

  // ---------------------------------------------------------------------
  // What the message rules accept
  // ---------------------------------------------------------------------

  lemma PriceField(name: string, es: seq<Entry>, p: seq<Segment>)
    ensures FieldOutcome(Field(name, PriceSchema, Mandatory), es, p).Ok? <==>
            Lookup(es, name).Some? && IsPrice(Lookup(es, name).value)
  {
    MandatoryField(name, PriceSchema, es, p);
    if Lookup(es, name).Some? { PriceAccepts(Lookup(es, name).value, p + [Key(name)]); }
  }

  lemma NetworkNameField(name: string, es: seq<Entry>, p: seq<Segment>)
    ensures FieldOutcome(Field(name, NetworkSchema, Mandatory), es, p).Ok? <==>
            TextWhere(Lookup(es, name), s => s in NetworkNames)
  {
    MandatoryField(name, NetworkSchema, es, p);
  }

  lemma OptionalAddressField(name: string, es: seq<Entry>, p: seq<Segment>)
    ensures FieldOutcome(Field(name, EthereumAddressSchema, Optional), es, p).Ok? <==>
            AbsentOr(Lookup(es, name), (x: Value) => x.Str? && AddressShape(x.s))
  {
    OptionalField(name, EthereumAddressSchema, es, p);
    if Lookup(es, name).Some? { EthereumAddressAccepts(Lookup(es, name).value, p + [Key(name)]); }
  }

  lemma TextField(name: string, es: seq<Entry>, p: seq<Segment>)
    ensures FieldOutcome(Field(name, Text([]), Mandatory), es, p).Ok? <==> TextWhere(Lookup(es, name), s => true)
  {
    MandatoryField(name, Text([]), es, p);
  }

  /** An optional positive integer. */
  lemma OptionalPositiveField(name: string, es: seq<Entry>, p: seq<Segment>)
    ensures FieldOutcome(Field(name, Number([IsInt, Above(0.0)]), Optional), es, p).Ok? <==>
            AbsentOr(Lookup(es, name), (x: Value) => x.Num? && IsInteger(x.n) && x.n > 0.0)
  {
    var c := [IsInt, Above(0.0)];
    OptionalNumberField(name, c, es, p);
    if Lookup(es, name).Some? && Lookup(es, name).value.Num? {
      var y := Lookup(es, name).value.n;
      assert (forall i :: 0 <= i < |c| ==> NumPasses(c[i], y)) <==> NumPasses(c[0], y) && NumPasses(c[1], y);
    }
  }

  lemma EnvelopeField(name: string, es: seq<Entry>, p: seq<Segment>)
    ensures FieldOutcome(Field(name, PaymentEnvelopeSchema, Mandatory), es, p).Ok? <==>
            Lookup(es, name).Some? && EnvelopeShape(Lookup(es, name).value)
  {
    MandatoryField(name, PaymentEnvelopeSchema, es, p);
    if Lookup(es, name).Some? { PaymentEnvelopeAccepts(Lookup(es, name).value, p + [Key(name)]); }
  }

  /** A route is accepted exactly when its path is non-empty, its price is a
      price and its description, if any, is text. */
  lemma RouteConfigAccepts(v: Value, p: seq<Segment>)
    ensures Apply(RouteConfigSchema, v, p).Ok? <==>
            && v.Obj?
            && TextWhere(Lookup(v.entries, "path"), s => |s| >= 1)
            && Lookup(v.entries, "price").Some? && IsPrice(Lookup(v.entries, "price").value)
            && AbsentOr(Lookup(v.entries, "description"), (x: Value) => x.Str?)
  {
    if v.Obj? {
      var es := v.entries;
      var fs := RouteConfigSchema.fields;
      ObjectOfThree(fs[0], fs[1], fs[2], es, p);
      NonEmptyField("path", "Path is required", es, p);
      PriceField("price", es, p);
      OptionalTextField("description", es, p);
    }
  }

  /** A payment request is accepted exactly when the amount is a price, the
      recipient an address, the network one of the six names, the memo absent
      or text, and the expiry absent or a positive integer. */
  lemma PaymentRequestAccepts(v: Value, p: seq<Segment>)
    ensures Apply(PaymentRequestSchema, v, p).Ok? <==>
            && v.Obj?
            && Lookup(v.entries, "amount").Some? && IsPrice(Lookup(v.entries, "amount").value)
            && TextWhere(Lookup(v.entries, "recipient"), AddressShape)
            && TextWhere(Lookup(v.entries, "network"), s => s in NetworkNames)
            && AbsentOr(Lookup(v.entries, "memo"), (x: Value) => x.Str?)
            && AbsentOr(Lookup(v.entries, "expiresAt"), (x: Value) => x.Num? && IsInteger(x.n) && x.n > 0.0)
  {
    if v.Obj? {
      var es := v.entries;
      var fs := PaymentRequestSchema.fields;
      ObjectOfFive(fs[0], fs[1], fs[2], fs[3], fs[4], es, p);
      PriceField("amount", es, p);
      AddressField("recipient", es, p);
      NetworkNameField("network", es, p);
      OptionalTextField("memo", es, p);
      OptionalPositiveField("expiresAt", es, p);
    }
  }

  /** A configuration is accepted exactly when the recipient is an address,
      the network one of the six names, the token address absent or an
      address, and the price table an object whose every entry is a price. */
  lemma PaymentConfigAccepts(v: Value, p: seq<Segment>)
    ensures Apply(PaymentConfigSchema, v, p).Ok? <==>
            && v.Obj?
            && TextWhere(Lookup(v.entries, "recipientAddress"), AddressShape)
            && TextWhere(Lookup(v.entries, "network"), s => s in NetworkNames)
            && AbsentOr(Lookup(v.entries, "tokenAddress"), (x: Value) => x.Str? && AddressShape(x.s))
            && Lookup(v.entries, "prices").Some? && PriceTable(Lookup(v.entries, "prices").value)
  {
    if v.Obj? {
      var es := v.entries;
      var fs := PaymentConfigSchema.fields;
      ObjectOfFour(fs[0], fs[1], fs[2], fs[3], es, p);
      AddressField("recipientAddress", es, p);
      NetworkNameField("network", es, p);
      OptionalAddressField("tokenAddress", es, p);
      PricesField(es, p);
    }
  }

  /** A price table: an object whose every value is a price. */
  predicate PriceTable(x: Value) {
    x.Obj? && forall i :: 0 <= i < |x.entries| ==> IsPrice(x.entries[i].val)
  }

  lemma PricesField(es: seq<Entry>, p: seq<Segment>)
    ensures FieldOutcome(Field("prices", Record(PriceSchema), Mandatory), es, p).Ok? <==>
            Lookup(es, "prices").Some? && PriceTable(Lookup(es, "prices").value)
  {
    MandatoryField("prices", Record(PriceSchema), es, p);
    var t := Lookup(es, "prices");
    if t.Some? && t.value.Obj? {
      var q := p + [Key("prices")];
      var ps := t.value.entries;
      RecordAccepts(PriceSchema, ps, q);
      forall i | 0 <= i < |ps|
        ensures Apply(PriceSchema, ps[i].val, q + [Key(ps[i].key)]).Ok? <==> IsPrice(ps[i].val)
      {
        PriceAccepts(ps[i].val, q + [Key(ps[i].key)]);
      }
    }
  }

  /** A verification request is accepted exactly when the envelope is an
      envelope, the expected amount is text, the expected recipient an
      address and the tolerance absent or a number in [0, 1]. */
  lemma PaymentVerificationAccepts(v: Value, p: seq<Segment>)
    ensures Apply(PaymentVerificationSchema, v, p).Ok? <==>
            && v.Obj?
            && Lookup(v.entries, "envelope").Some? && EnvelopeShape(Lookup(v.entries, "envelope").value)
            && TextWhere(Lookup(v.entries, "expectedAmount"), s => true)
            && TextWhere(Lookup(v.entries, "expectedRecipient"), AddressShape)
            && AbsentOr(Lookup(v.entries, "tolerance"), (x: Value) => x.Num? && 0.0 <= x.n <= 1.0)
  {
    if v.Obj? {
      var es := v.entries;
      var fs := PaymentVerificationSchema.fields;
      ObjectOfFour(fs[0], fs[1], fs[2], fs[3], es, p);
      EnvelopeField("envelope", es, p);
      TextField("expectedAmount", es, p);
      AddressField("expectedRecipient", es, p);
      ToleranceAccepted(es, p);
    }
  }

  lemma ToleranceAccepted(es: seq<Entry>, p: seq<Segment>)
    ensures FieldOutcome(PaymentVerificationSchema.fields[3], es, p).Ok? <==>
            AbsentOr(Lookup(es, "tolerance"), (x: Value) => x.Num? && 0.0 <= x.n <= 1.0)
  {
    var c := [AtLeast(0.0), AtMost(1.0)];
    assert PaymentVerificationSchema.fields[3] == Field("tolerance", Number(c), Defaulted(Num(0.0)));
    NumberDefaultField("tolerance", c, 0.0, es, p);
    if Lookup(es, "tolerance").Some? && Lookup(es, "tolerance").value.Num? {
      var y := Lookup(es, "tolerance").value.n;
      assert (forall i :: 0 <= i < |c| ==> NumPasses(c[i], y)) <==> NumPasses(c[0], y) && NumPasses(c[1], y);
    }
  }

  /** A token description is accepted exactly when the address is an
      address, name and symbol are text, the decimals an integer in [0, 18]
      and the chain id a positive integer. */
  lemma TokenInfoAccepts(v: Value, p: seq<Segment>)
    ensures Apply(TokenInfoSchema, v, p).Ok? <==>
            && v.Obj?
            && TextWhere(Lookup(v.entries, "address"), AddressShape)
            && TextWhere(Lookup(v.entries, "name"), s => true)
            && TextWhere(Lookup(v.entries, "symbol"), s => true)
            && IntWhere(Lookup(v.entries, "decimals"), d => 0.0 <= d <= 18.0)
            && IntWhere(Lookup(v.entries, "chainId"), c => c > 0.0)
  {
    if v.Obj? {
      var es := v.entries;
      var fs := TokenInfoSchema.fields;
      ObjectOfFive(fs[0], fs[1], fs[2], fs[3], fs[4], es, p);
      AddressField("address", es, p);
      TextField("name", es, p);
      TextField("symbol", es, p);
      DecimalsField(es, p);
      IntField("chainId", Above(0.0), c => c > 0.0, es, p);
    }
  }

  lemma DecimalsField(es: seq<Entry>, p: seq<Segment>)
    ensures FieldOutcome(TokenInfoSchema.fields[3], es, p).Ok? <==>
            IntWhere(Lookup(es, "decimals"), d => 0.0 <= d <= 18.0)
  {
    var c := [IsInt, AtLeast(0.0), AtMost(18.0)];
    assert TokenInfoSchema.fields[3] == Field("decimals", Number(c), Mandatory);
    MandatoryField("decimals", Number(c), es, p);
    if Lookup(es, "decimals").Some? && Lookup(es, "decimals").value.Num? {
      var y := Lookup(es, "decimals").value.n;
      assert NumIssues(c, y, p + [Key("decimals")]) == [] <==>
             NumPasses(c[0], y) && NumPasses(c[1], y) && NumPasses(c[2], y);
    }
  }

  /** A signing domain is accepted exactly when name and version are text,
      the chain id a positive integer and the verifying contract an address. */
  lemma Eip712DomainAccepts(v: Value, p: seq<Segment>)
    ensures Apply(Eip712DomainSchema, v, p).Ok? <==>
            && v.Obj?
            && TextWhere(Lookup(v.entries, "name"), s => true)
            && TextWhere(Lookup(v.entries, "version"), s => true)
            && IntWhere(Lookup(v.entries, "chainId"), c => c > 0.0)
            && TextWhere(Lookup(v.entries, "verifyingContract"), AddressShape)
  {
    if v.Obj? {
      var es := v.entries;
      var fs := Eip712DomainSchema.fields;
      ObjectOfFour(fs[0], fs[1], fs[2], fs[3], es, p);
      TextField("name", es, p);
      TextField("version", es, p);
      IntField("chainId", Above(0.0), c => c > 0.0, es, p);
      AddressField("verifyingContract", es, p);
    }
  }

  /** A settlement request is accepted exactly when the envelope is an
      envelope and the private key, if any, is text. */
  lemma SettlementRequestAccepts(v: Value, p: seq<Segment>)
    ensures Apply(SettlementRequestSchema, v, p).Ok? <==>
            && v.Obj?
            && Lookup(v.entries, "envelope").Some? && EnvelopeShape(Lookup(v.entries, "envelope").value)
            && AbsentOr(Lookup(v.entries, "privateKey"), (x: Value) => x.Str?)
  {
    if v.Obj? {
      var es := v.entries;
      var fs := SettlementRequestSchema.fields;
      ObjectOfTwo(fs[0], fs[1], es, p);
      EnvelopeField("envelope", es, p);
      OptionalTextField("privateKey", es, p);
    }
  }

  /** A settlement result is accepted exactly when the success flag is a
      boolean, the transaction hash absent or a hash, and the error and gas
      figures absent or text. */
  lemma SettlementResultAccepts(v: Value, p: seq<Segment>)
    ensures Apply(SettlementResultSchema, v, p).Ok? <==>
            && v.Obj?
            && Lookup(v.entries, "success").Some? && Lookup(v.entries, "success").value.Bool?
            && AbsentOr(Lookup(v.entries, "transactionHash"), (x: Value) => x.Str? && TxHashShape(x.s))
            && AbsentOr(Lookup(v.entries, "error"), (x: Value) => x.Str?)
            && AbsentOr(Lookup(v.entries, "gasUsed"), (x: Value) => x.Str?)
  {
    if v.Obj? {
      var es := v.entries;
      var fs := SettlementResultSchema.fields;
      ObjectOfFour(fs[0], fs[1], fs[2], fs[3], es, p);
      MandatoryField("success", Boolean, es, p);
      OptionalField("transactionHash", TransactionHashSchema, es, p);
      if Lookup(es, "transactionHash").Some? {
        TransactionHashAccepts(Lookup(es, "transactionHash").value, p + [Key("transactionHash")]);
      }
      OptionalTextField("error", es, p);
      OptionalTextField("gasUsed", es, p);
    }
  }

  /** An error response is accepted exactly when the error is text, the code
      one of the seven and the details, if any, an object of any values. */
  lemma PaymentErrorAccepts(v: Value, p: seq<Segment>)
    ensures Apply(PaymentErrorSchema, v, p).Ok? <==>
            && v.Obj?
            && TextWhere(Lookup(v.entries, "error"), s => true)
            && TextWhere(Lookup(v.entries, "code"), c => c in PaymentErrorCodes)
            && AbsentOr(Lookup(v.entries, "details"), (x: Value) => x.Obj?)
  {
    if v.Obj? {
      var es := v.entries;
      var fs := PaymentErrorSchema.fields;
      ObjectOfThree(fs[0], fs[1], fs[2], es, p);
      TextField("error", es, p);
      MandatoryField("code", Enum(PaymentErrorCodes), es, p);
      DetailsField(es, p);
    }
  }

  /** The details: absent, or an object holding anything. */
  lemma DetailsField(es: seq<Entry>, p: seq<Segment>)
    ensures FieldOutcome(Field("details", Record(Unknown), Optional), es, p).Ok? <==>
            AbsentOr(Lookup(es, "details"), (x: Value) => x.Obj?)
  {
    OptionalField("details", Record(Unknown), es, p);
    var d := Lookup(es, "details");
    if d.Some? && d.value.Obj? {
      RecordAccepts(Unknown, d.value.entries, p + [Key("details")]);
    }
  }

  /** Every payment rule set has unique field names and scalar unions, so
      normalising with any of them is idempotent. */
  lemma PaymentFormatsNormal()
    ensures Normal(NetworkSchema) && Normal(Caip2NetworkSchema) && Normal(EthereumAddressSchema)
    ensures Normal(TransactionHashSchema) && Normal(SignatureSchema) && Normal(PaymentHeaderSchema)
    ensures Normal(PriceSchema)
  {
  }

  lemma EnvelopeNormal()
    ensures Normal(PayloadSchema) && Normal(PaymentEnvelopeSchema)
  {
    assert Normal(PayloadSchema);
  }

  lemma PaymentMessagesNormal()
    ensures Normal(PaymentConfigSchema) && Normal(RouteConfigSchema)
  {
  }

  lemma RequestNormal()
    ensures Normal(PaymentRequestSchema)
  {
  }

  lemma VerificationNormal()
    ensures Normal(PaymentVerificationSchema) && Normal(SettlementRequestSchema)
  {
    EnvelopeNormal();
  }

  lemma TokenSchemasNormal()
    ensures Normal(TokenInfoSchema) && Normal(Eip712DomainSchema)
  {
  }

  lemma SettlementSchemasNormal()
    ensures Normal(SettlementResultSchema) && Normal(PaymentErrorSchema)
  {
  }
}
