/**
 * Native amounts: the wei-to-ether conversion of `wei_hex_to_float`, the
 * base-16 header fields of an ETH block, and the sum of a BTC transaction's
 * outputs. Amounts are exact `real`s; the program's floats are not modelled.
 */
module Amounts {
  import opened Wrappers
  import opened PyInt

  /** A JSON scalar as the decoder hands it to the program (`null`, and arrays or objects, are `JNull`). */
  datatype Json = JText(s: string) | JInt(i: int) | JBool(b: bool) | JNull

  /** Wei in one ether: the divisor 10**18. */
  const WeiPerEther: nat := 1_000_000_000_000_000_000

  /** `true` when `s.startswith("0x")`. */
  predicate StartsWithHexPrefix(s: string) {
    |s| >= 2 && s[0] == '0' && s[1] == 'x'
  }

  /**
   * The integer half of `wei_hex_to_float`: text starting with `0x` is read as
   * `int(s, 16)`, other text as `int(s)`, a JSON number or boolean is converted
   * by `int(...)`, and anything else raises (`None`).
   */
  function WeiOf(v: Json): Option<int> {
    match v
    case JText(s) => if StartsWithHexPrefix(s) then ParseInt(s, Hex) else ParseInt(s, Dec)
    case JInt(i) => Some(i)
    case JBool(b) => Some(if b then 1 else 0)
    case JNull => None
  }

  /** `wei_hex_to_float` with exact division: wei / 10**18, or `None` where the source raises. */
  function WeiToEther(v: Json): Option<real> {
    match WeiOf(v)
    case None => None
    case Some(w) => Some(w as real / WeiPerEther as real)
  }

  /** `int(field, 16)` of a block header field whose default is `"0x0"`; non-text raises. */
  function HexField(f: Option<Json>): Option<int> {
    match f.GetOr(JText("0x0"))
    case JText(s) => ParseInt(s, Hex)
    case _ => None
  }

  /** A hexadecimal wei value reads back as that many wei, divided by 10**18. */
  lemma WeiHexRoundTrip(n: nat, s: string)
    requires s == "0x" + Digits(n, Hex)
    ensures WeiOf(JText(s)) == Some(n)
    ensures WeiToEther(JText(s)) == Some(n as real / WeiPerEther as real)
  {
    HexRoundTrip(n);
  }

  /** A decimal wei value (any sign) reads back as that many wei, divided by 10**18. */
  lemma WeiDecRoundTrip(i: int)
    ensures WeiOf(JText(DecString(i))) == Some(i)
    ensures WeiToEther(JText(DecString(i))) == Some(i as real / WeiPerEther as real)
  {
    DecRoundTrip(i);
  }

  /** One more hexadecimal digit: a step of `Digits` on a concrete value. */
  lemma DigitsSnoc(n: nat, prefix: string, c: char)
    requires n >= 16 && Digits(n / 16, Hex) == prefix && DigitChar(n % 16) == c
    ensures Digits(n, Hex) == prefix + [c]
  {
  }

  /** 10**18 in hexadecimal. */
  lemma OneEtherDigits()
    ensures Digits(WeiPerEther, Hex) == "de0b6b3a7640000"
  {
    assert Digits(13, Hex) == "d";
    DigitsSnoc(222, "d", 'e');
    DigitsSnoc(3552, "de", '0');
    DigitsSnoc(56843, "de0", 'b');
    DigitsSnoc(909494, "de0b", '6');
    DigitsSnoc(14551915, "de0b6", 'b');
    DigitsSnoc(232830643, "de0b6b", '3');
    DigitsSnoc(3725290298, "de0b6b3", 'a');
    DigitsSnoc(59604644775, "de0b6b3a", '7');
    DigitsSnoc(953674316406, "de0b6b3a7", '6');
    DigitsSnoc(15258789062500, "de0b6b3a76", '4');
    DigitsSnoc(244140625000000, "de0b6b3a764", '0');
    DigitsSnoc(3906250000000000, "de0b6b3a7640", '0');
    DigitsSnoc(62500000000000000, "de0b6b3a76400", '0');
    DigitsSnoc(1000000000000000000, "de0b6b3a764000", '0');
  }

  /** The wei value of the large-transfer example. */
  const LargeTransferWei: nat := 119209282808043274240

  /** `LargeTransferWei` in hexadecimal. */
  lemma LargeTransferDigits()
    ensures Digits(LargeTransferWei, Hex) == "6765c731db6800000"
  {
    assert Digits(6, Hex) == "6";
    DigitsSnoc(103, "6", '7');
    DigitsSnoc(1654, "67", '6');
    DigitsSnoc(26469, "676", '5');
    DigitsSnoc(423516, "6765", 'c');
    DigitsSnoc(6776263, "6765c", '7');
    DigitsSnoc(108420211, "6765c7", '3');
    DigitsSnoc(1734723377, "6765c73", '1');
    DigitsSnoc(27755574045, "6765c731", 'd');
    DigitsSnoc(444089184731, "6765c731d", 'b');
    DigitsSnoc(7105426955702, "6765c731db", '6');
    DigitsSnoc(113686831291240, "6765c731db6", '8');
    DigitsSnoc(1818989300659840, "6765c731db68", '0');
    DigitsSnoc(29103828810557440, "6765c731db680", '0');
    DigitsSnoc(465661260968919040, "6765c731db6800", '0');
    DigitsSnoc(7450580175502704640, "6765c731db68000", '0');
    DigitsSnoc(119209282808043274240, "6765c731db680000", '0');
  }

  /** The upper-case prefix `0X` is not `startswith("0x")`: it goes to `int(s)` and fails. */
  lemma UpperCasePrefixRejected(n: nat)
    ensures WeiToEther(JText("0X" + Digits(n, Hex))) == None
  {
    var s := "0X" + Digits(n, Hex);
    assert !StartsWithHexPrefix(s);
    if ParseInt(s, Dec).Some? {
      var d := Digits(n, Hex);
      assert IsDigit(d[|d| - 1], Hex) && s[|s| - 1] == d[|d| - 1];
      IntTrimUnchanged(s);
      DigitsValueCharset(s, Dec, 1);
      assert false;
    }
  }

  /** One output of a BTC transaction: `value` missing or null, a number, or something `float()` rejects. */
  datatype Output = NoValue | Value(btc: real) | Unreadable

  /**
   * The sum of the output values, skipping outputs without a value; `None`
   * when some value cannot be converted (the source raises and the
   * transaction is skipped).
   */
  function OutputsTotal(vouts: seq<Output>): Option<real>
    decreases |vouts|
  {
    if vouts == [] then Some(0.0)
    else
      match OutputsTotal(vouts[..|vouts| - 1])
      case None => None
      case Some(t) =>
        match vouts[|vouts| - 1]
        case NoValue => Some(t)
        case Value(x) => Some(t + x)
        case Unreadable => None
  }

  /** The total of a concatenation combines the totals of its parts. */
  lemma {:induction false} OutputsTotalAppend(a: seq<Output>, b: seq<Output>)
    ensures OutputsTotal(a + b) ==
      if OutputsTotal(a).Some? && OutputsTotal(b).Some? then Some(OutputsTotal(a).value + OutputsTotal(b).value)
      else None
    decreases |b|
  {
    if b == [] {
      assert a + b == a;
    } else {
      var b' := b[..|b| - 1];
      assert (a + b)[..|a + b| - 1] == a + b';
      OutputsTotalAppend(a, b');
    }
  }

  /** The sum fails exactly when some output is unreadable. */
  lemma {:induction false} OutputsTotalFails(vouts: seq<Output>)
    ensures OutputsTotal(vouts).None? <==> exists i :: 0 <= i < |vouts| && vouts[i].Unreadable?
    decreases |vouts|
  {
    if vouts != [] {
      var p := vouts[..|vouts| - 1];
      OutputsTotalFails(p);
      if exists i :: 0 <= i < |p| && p[i].Unreadable? {
        var i :| 0 <= i < |p| && p[i].Unreadable?;
        assert vouts[i] == p[i];
      }
      if exists i :: 0 <= i < |vouts| && vouts[i].Unreadable? {
        var i :| 0 <= i < |vouts| && vouts[i].Unreadable?;
        if i < |p| { assert p[i] == vouts[i]; }
      }
    }
  }

  /** Outputs without a value contribute nothing, wherever they stand. */
  lemma MissingValueIgnored(a: seq<Output>, b: seq<Output>)
    ensures OutputsTotal(a + [NoValue] + b) == OutputsTotal(a + b)
  {
    OutputsTotalAppend(a + [NoValue], b);
    OutputsTotalAppend(a, [NoValue]);
    OutputsTotalAppend(a, b);
    assert OutputsTotal([NoValue]) == Some(0.0) by { assert [NoValue][..0] == []; }
  }

  /** The `total_btc` loop: accumulate values, skip missing ones, give up on an unreadable one. */
  method SumOutputs(vouts: seq<Output>) returns (total: Option<real>)
    ensures total == OutputsTotal(vouts)
  {
    var sum := 0.0;
    var i := 0;
    while i < |vouts|
      invariant 0 <= i <= |vouts|
      invariant OutputsTotal(vouts[..i]) == Some(sum)
    {
      assert vouts[..i + 1][..i] == vouts[..i];
      match vouts[i] {
        case NoValue =>
        case Value(x) =>
          sum := sum + x;
        case Unreadable =>
          OutputsTotalFails(vouts);
          return None;
      }
      i := i + 1;
    }
    assert vouts[..i] == vouts;
    total := Some(sum);
  }
}
