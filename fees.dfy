/**
 * Contract-symbol normalisation and the fee and point-value tables of config/fees.py.
 * Fees are per round turn (one opening plus one closing fill) in US dollars.
 */
module Fees {
  import opened Wrappers
  import opened Text
  import opened Sorting

  /**
   * A dictionary literal as its list of `(key, value)` entries, in the order written.
   * Lookups take the first entry with the key; the tables here have distinct keys.
   */
  type Table = seq<(string, real)>

  function Lookup(t: Table, k: string): Option<real>
    decreases |t|, |k|
  {
    if |t| == 0 then None else if t[0].0 == k then Some(t[0].1) else Lookup(t[1..], k)
  }

  /** The keys of a table, in dictionary order (`d.keys()`). */
  function Keys(t: Table): (keys: seq<string>)
    ensures |keys| == |t|
    decreases |t|
  {
    if |t| == 0 then [] else [t[0].0] + Keys(t[1..])
  }

  /** Every value of the table is at least `lo`. */
  predicate AllAtLeast(t: Table, lo: real) {
    forall i :: 0 <= i < |t| ==> t[i].1 >= lo
  }

  /** A key is found exactly when it is one of the table's keys, and what is found is a value of the table. */
  lemma {:induction false} LookupFinds(t: Table, k: string, lo: real)
    ensures Lookup(t, k).Some? <==> k in Keys(t)
    ensures AllAtLeast(t, lo) && Lookup(t, k).Some? ==> Lookup(t, k).value >= lo
    decreases |t|
  {
    if |t| > 0 {
      LookupFinds(t[1..], k, lo);
    }
  }

  /** NFA regulatory fee charged on every round turn. */
  const NfaFeePerRoundTurn: real := 0.04

  /** Exchange fee per round turn, by base symbol (`EXCHANGE_FEES`), written group by group. */
  function ExchangeFees(): Table {
    EquityIndexFees + FxFees + MetalFees + EnergyFees + AgriculturalFees
  }

  /** CME equity index futures. */
  const EquityIndexFees: Table := [
    ("ES", 2.76), ("NQ", 2.76), ("RTY", 2.76), ("YM", 2.76),
    ("MES", 0.70), ("MNQ", 0.70), ("M2K", 0.70), ("MYM", 0.70)
  ]

  /** CME FX futures. */
  const FxFees: Table := [
    ("6A", 3.20), ("6B", 3.20), ("6C", 3.20), ("6E", 3.20),
    ("6J", 3.20), ("6S", 3.20), ("6N", 3.20), ("6M", 3.20),
    ("M6A", 0.48), ("M6B", 0.48), ("M6E", 0.48)
  ]

  /** COMEX metals. */
  const MetalFees: Table := [
    ("GC", 3.20), ("SI", 3.20), ("HG", 3.20), ("MGC", 1.20), ("SIL", 1.20)
  ]

  /** NYMEX energy. */
  const EnergyFees: Table := [
    ("CL", 3.20), ("NG", 3.20), ("MCL", 1.20), ("MNG", 1.20)
  ]

  /** CME agricultural. */
  const AgriculturalFees: Table := [
    ("LE", 4.20), ("HE", 4.20), ("ZC", 3.20), ("ZS", 3.20), ("ZW", 3.20)
  ]

  /** Exchange fee assumed for a contract whose base symbol is not in the table. */
  const DefaultExchangeFee: real := 2.76

  /** Dollar value of one point of price movement for one contract (`POINT_VALUES`). */
  function PointValues(): Table {
    EquityIndexPoints + FxPoints + MetalPoints + EnergyPoints + AgriculturalPoints
  }

  const EquityIndexPoints: Table := [
    ("ES", 50.0), ("NQ", 20.0), ("RTY", 50.0), ("YM", 5.0),
    ("MES", 5.0), ("MNQ", 2.0), ("M2K", 5.0), ("MYM", 0.5)
  ]

  const FxPoints: Table := [
    ("6A", 100000.0), ("6B", 62500.0), ("6C", 100000.0), ("6E", 125000.0),
    ("6J", 12500000.0), ("6S", 125000.0), ("6N", 100000.0), ("6M", 500000.0),
    ("M6A", 10000.0), ("M6B", 6250.0), ("M6E", 12500.0)
  ]

  const MetalPoints: Table := [
    ("GC", 100.0), ("SI", 5000.0), ("HG", 25000.0), ("MGC", 10.0), ("SIL", 1000.0)
  ]

  const EnergyPoints: Table := [
    ("CL", 1000.0), ("NG", 10000.0), ("MCL", 100.0), ("MNG", 1000.0)
  ]

  const AgriculturalPoints: Table := [
    ("LE", 400.0), ("HE", 400.0), ("ZC", 50.0), ("ZS", 50.0), ("ZW", 50.0)
  ]

  const DefaultPointValue: real := 1.0

  lemma AllAtLeastAppend(a: Table, b: Table, lo: real)
    requires AllAtLeast(a, lo) && AllAtLeast(b, lo)
    ensures AllAtLeast(a + b, lo)
  {
    forall i | 0 <= i < |a + b| ensures (a + b)[i] == if i < |a| then a[i] else b[i - |a|] {
    }
  }


  lemma {:induction false} KeysAppend(a: Table, b: Table)
    ensures Keys(a + b) == Keys(a) + Keys(b)
    decreases |a|
  {
    if |a| > 0 {
      assert (a + b)[1..] == a[1..] + b;
      KeysAppend(a[1..], b);
    } else {
      assert a + b == b;
    }
  }

  /** Every exchange fee in the table is at least 0.48. */
  lemma ExchangeFeesAtLeast()
    ensures AllAtLeast(ExchangeFees(), 0.48)
  {
    assert AllAtLeast(EquityIndexFees, 0.48);
    assert AllAtLeast(FxFees, 0.48);
    assert AllAtLeast(MetalFees, 0.48);
    assert AllAtLeast(EnergyFees, 0.48);
    assert AllAtLeast(AgriculturalFees, 0.48);
    AllAtLeastAppend(EquityIndexFees, FxFees, 0.48);
    AllAtLeastAppend(EquityIndexFees + FxFees, MetalFees, 0.48);
    AllAtLeastAppend(EquityIndexFees + FxFees + MetalFees, EnergyFees, 0.48);
    AllAtLeastAppend(EquityIndexFees + FxFees + MetalFees + EnergyFees, AgriculturalFees, 0.48);
  }

  /** Every point value in the table is at least 0.5. */
  lemma PointValuesAtLeast()
    ensures AllAtLeast(PointValues(), 0.5)
  {
    assert AllAtLeast(EquityIndexPoints, 0.5);
    assert AllAtLeast(FxPoints, 0.5);
    assert AllAtLeast(MetalPoints, 0.5);
    assert AllAtLeast(EnergyPoints, 0.5);
    assert AllAtLeast(AgriculturalPoints, 0.5);
    AllAtLeastAppend(EquityIndexPoints, FxPoints, 0.5);
    AllAtLeastAppend(EquityIndexPoints + FxPoints, MetalPoints, 0.5);
    AllAtLeastAppend(EquityIndexPoints + FxPoints + MetalPoints, EnergyPoints, 0.5);
    AllAtLeastAppend(EquityIndexPoints + FxPoints + MetalPoints + EnergyPoints, AgriculturalPoints, 0.5);
  }

  /** Negated length: sorting by it ascending is `sorted(..., key=len, reverse=True)`. */
  function LongerFirstKey(k: string): int {
    -|k|
  }

  /** `known_symbols`: the fee table's keys, longest first, ties in dictionary order. */
  function KnownSymbols(): seq<string> {
    SortBy(Keys(ExchangeFees()), LongerFirstKey)
  }

  predicate LongestFirst(keys: seq<string>) {
    forall i, j :: 0 <= i < j < |keys| ==> |keys[i]| >= |keys[j]|
  }

  /** The search list holds exactly the fee table's keys, longest first. */
  lemma KnownSymbolsOrdered()
    ensures forall k :: k in KnownSymbols() <==> k in Keys(ExchangeFees())
    ensures LongestFirst(KnownSymbols())
  {
    LongerFirstSorted(Keys(ExchangeFees()));
  }

  /** Sorting by negated length keeps the keys and puts the longest first. */
  lemma LongerFirstSorted(keys: seq<string>)
    ensures forall k :: k in SortBy(keys, LongerFirstKey) <==> k in keys
    ensures LongestFirst(SortBy(keys, LongerFirstKey))
  {
    SortBySortedPermutation(keys, LongerFirstKey);
    assert forall k :: k in SortBy(keys, LongerFirstKey) <==> k in multiset(keys);
  }

  /** The first key of `keys` that `s` starts with: the `for known in known_symbols` search. */
  function FirstPrefix(keys: seq<string>, s: string): Option<string>
    decreases |keys|, |s|
  {
    if |keys| == 0 then None
    else if StartsWith(s, keys[0]) then Some(keys[0])
    else FirstPrefix(keys[1..], s)
  }

  /**
   * The search finds a key `s` starts with exactly when there is one, and over a
   * longest-first key list the key it finds is a longest one.
   */
  lemma {:induction false} FirstPrefixFindsLongest(keys: seq<string>, s: string)
    ensures FirstPrefix(keys, s).Some? ==>
      FirstPrefix(keys, s).value in keys && StartsWith(s, FirstPrefix(keys, s).value)
    ensures FirstPrefix(keys, s).None? <==> forall k :: k in keys ==> !StartsWith(s, k)
    ensures FirstPrefix(keys, s).Some? && LongestFirst(keys) ==>
      forall k :: k in keys && StartsWith(s, k) ==> |k| <= |FirstPrefix(keys, s).value|
    decreases |keys|
  {
    if |keys| > 0 && !StartsWith(s, keys[0]) {
      FirstPrefixFindsLongest(keys[1..], s);
      assert forall k :: k in keys ==> k == keys[0] || k in keys[1..];
      if LongestFirst(keys) {
        forall i, j | 0 <= i < j < |keys[1..]| ensures |keys[1..][i]| >= |keys[1..][j]| {
          assert keys[1..][i] == keys[i + 1] && keys[1..][j] == keys[j + 1];
        }
      }
    } else if |keys| > 0 && LongestFirst(keys) {
      forall k | k in keys ensures |k| <= |keys[0]| {
        var i :| 0 <= i < |keys| && keys[i] == k;
        assert i == 0 || |keys[0]| >= |keys[i]|;
      }
    }
  }

  /** The normalisation applied before any matching: upper-case, then strip whitespace. */
  function Normalize(symbol: string): string {
    Strip(Upper(symbol))
  }

  /** Exchange-reported synonyms in the dotted contract form. */
  function SymbolAlias(base: string): (r: string)
    ensures base == "ENQ" ==> r == "NQ"
    ensures base == "EMD" ==> r == "ES"
    ensures base != "ENQ" && base != "EMD" ==> r == base
  {
    if base == "ENQ" then "NQ" else if base == "EMD" then "ES" else base
  }

  /** The dotted `CON.F.<exchange>.<base>.<expiry>` form with at least four segments. */
  predicate IsDottedContract(s: string) {
    StartsWith(s, "CON.F.") && |Split(s, '.')| >= 4
  }

  /** The 2- or 3-character guess used when no table key matches. */
  function Fallback(s: string): (r: string)
    ensures StartsWith(s, r) && |r| <= 3
    ensures |r| == (if StartsWith(s, "M") && |s| >= 3 then 3 else if |s| >= 2 then 2 else |s|)
  {
    if StartsWith(s, "M") && |s| >= 3 then s[..3]
    else if |s| >= 2 then s[..2]
    else s
  }

  /** `extract_base_symbol`: the root contract code of a raw contract id. */
  function ExtractBaseSymbol(symbol: string): string {
    BaseOfNormalized(Normalize(symbol))
  }

  /** The three routes of `extract_base_symbol`, tried in order on the normalised id. */
  function BaseOfNormalized(s: string): string {
    if IsDottedContract(s) then
      SymbolAlias(Split(s, '.')[3])
    else
      match FirstPrefix(KnownSymbols(), s)
      case Some(known) => known
      case None => Fallback(s)
  }

  /**
   * A dotted `CON.F.` id with at least four segments gives its fourth segment, with
   * `ENQ` read as `NQ` and `EMD` as `ES`.
   */
  lemma BaseSymbolDotted(symbol: string)
    requires IsDottedContract(Normalize(symbol))
    ensures ExtractBaseSymbol(symbol) == SymbolAlias(Split(Normalize(symbol), '.')[3])
    ensures Split(Normalize(symbol), '.')[3] == "ENQ" ==> ExtractBaseSymbol(symbol) == "NQ"
    ensures Split(Normalize(symbol), '.')[3] == "EMD" ==> ExtractBaseSymbol(symbol) == "ES"
    ensures Split(Normalize(symbol), '.')[3] != "ENQ" && Split(Normalize(symbol), '.')[3] != "EMD" ==>
      ExtractBaseSymbol(symbol) == Split(Normalize(symbol), '.')[3]
  {
  }

  /**
   * Any other id that starts with a fee-table key gives the longest such key (two keys
   * of one length cannot both be prefixes of the id, so that key is unique).
   */
  lemma BaseSymbolLongestKey(symbol: string)
    requires !IsDottedContract(Normalize(symbol))
    requires exists k :: k in Keys(ExchangeFees()) && StartsWith(Normalize(symbol), k)
    ensures ExtractBaseSymbol(symbol) in Keys(ExchangeFees())
    ensures StartsWith(Normalize(symbol), ExtractBaseSymbol(symbol))
    ensures forall k :: k in Keys(ExchangeFees()) && StartsWith(Normalize(symbol), k) ==>
      |k| <= |ExtractBaseSymbol(symbol)|
  {
    KnownSymbolsOrdered();
    FirstPrefixFindsLongest(KnownSymbols(), Normalize(symbol));
  }

  /** With no fee-table key as a prefix, the 2- or 3-character fallback is used. */
  lemma BaseSymbolFallback(symbol: string)
    requires !IsDottedContract(Normalize(symbol))
    requires forall k :: k in Keys(ExchangeFees()) ==> !StartsWith(Normalize(symbol), k)
    ensures ExtractBaseSymbol(symbol) == Fallback(Normalize(symbol))
  {
    KnownSymbolsOrdered();
    FirstPrefixFindsLongest(KnownSymbols(), Normalize(symbol));
  }

  /** A key is two or three characters long, and a three-character one begins with `M`, `R` or `S`. */
  predicate KeyShape(k: string) {
    2 <= |k| <= 3 && (|k| == 3 ==> k[0] == 'M' || k[0] == 'R' || k[0] == 'S')
  }

  predicate ShortKeys(t: Table) {
    forall i :: 0 <= i < |t| ==> KeyShape(t[i].0)
  }

  lemma ShortKeysAppend(a: Table, b: Table)
    requires ShortKeys(a) && ShortKeys(b)
    ensures ShortKeys(a + b)
  {
    forall i | 0 <= i < |a + b| ensures (a + b)[i] == if i < |a| then a[i] else b[i - |a|] {
    }
  }


  lemma {:induction false} ShortKeysMember(t: Table, k: string)
    requires ShortKeys(t) && k in Keys(t)
    ensures KeyShape(k)
    decreases |t|
  {
    if k != t[0].0 {
      ShortKeysMember(t[1..], k);
    }
  }

  lemma EquityIndexKeysShort() ensures ShortKeys(EquityIndexFees) {}
  lemma FxKeysShort() ensures ShortKeys(FxFees) {}
  lemma MetalKeysShort() ensures ShortKeys(MetalFees) {}
  lemma EnergyKeysShort() ensures ShortKeys(EnergyFees) {}
  lemma AgriculturalKeysShort() ensures ShortKeys(AgriculturalFees) {}

  /**
   * Every fee-table key is two or three characters long; the three-character ones are the
   * micro contracts, `RTY` and `SIL`, so they begin with `M`, `R` or `S`.
   */
  lemma FeeKeysShort()
    ensures forall k :: k in Keys(ExchangeFees()) ==> KeyShape(k)
  {
    EquityIndexKeysShort();
    FxKeysShort();
    MetalKeysShort();
    EnergyKeysShort();
    AgriculturalKeysShort();
    ShortKeysAppend(EquityIndexFees, FxFees);
    ShortKeysAppend(EquityIndexFees + FxFees, MetalFees);
    ShortKeysAppend(EquityIndexFees + FxFees + MetalFees, EnergyFees);
    ShortKeysAppend(EquityIndexFees + FxFees + MetalFees + EnergyFees, AgriculturalFees);
    forall k | k in Keys(ExchangeFees()) ensures KeyShape(k) {
      ShortKeysMember(ExchangeFees(), k);
    }
  }

  /** Outside the dotted form the base symbol is a prefix of the normalised id, at most three long. */
  lemma BaseSymbolIsShortPrefix(symbol: string)
    requires !IsDottedContract(Normalize(symbol))
    ensures StartsWith(Normalize(symbol), ExtractBaseSymbol(symbol))
    ensures |ExtractBaseSymbol(symbol)| <= 3
  {
    KnownSymbolsOrdered();
    FeeKeysShort();
    var s := Normalize(symbol);
    FirstPrefixFindsLongest(KnownSymbols(), s);
  }

  /** Only the normalised id matters: case and surrounding whitespace never change the base symbol. */
  lemma BaseSymbolIgnoresCaseAndPadding(symbol: string, variant: string, w1: string, w2: string)
    requires CaseVariant(symbol, variant)
    requires AllSpace(w1) && AllSpace(w2)
    ensures ExtractBaseSymbol(w1 + variant + w2) == ExtractBaseSymbol(symbol)
  {
    assert Normalize(w1 + variant + w2) == Normalize(symbol) by {
      UpperAppend(w1 + variant, w2);
      UpperAppend(w1, variant);
      UpperSpace(w1);
      UpperSpace(w2);
      CaseVariantUpper(symbol, variant);
      StripPadding(w1, Upper(variant), w2);
    }
  }

  /** `get_fee_per_round_turn`: table or default exchange fee plus the NFA fee. */
  function FeePerRoundTurn(symbol: string): (fee: real)
    ensures fee >= 0.52
    ensures Lookup(ExchangeFees(), ExtractBaseSymbol(symbol)).Some? ==>
      fee == Lookup(ExchangeFees(), ExtractBaseSymbol(symbol)).value + 0.04
    ensures Lookup(ExchangeFees(), ExtractBaseSymbol(symbol)).None? ==> fee == 2.80
  {
    var base := ExtractBaseSymbol(symbol);
    ExchangeFeesAtLeast();
    LookupFinds(ExchangeFees(), base, 0.48);
    Lookup(ExchangeFees(), base).GetOr(DefaultExchangeFee) + NfaFeePerRoundTurn
  }

  /** `get_fee_per_side`: half of the round-turn fee. */
  function FeePerSide(symbol: string): (fee: real)
    ensures fee * 2.0 == FeePerRoundTurn(symbol)
    ensures fee >= 0.26
  {
    FeePerRoundTurn(symbol) / 2.0
  }

  /** `get_point_value`: table or default dollar value per point. */
  function PointValue(symbol: string): (value: real)
    ensures value > 0.0
    ensures Lookup(PointValues(), ExtractBaseSymbol(symbol)).Some? ==>
      value == Lookup(PointValues(), ExtractBaseSymbol(symbol)).value
    ensures Lookup(PointValues(), ExtractBaseSymbol(symbol)).None? ==> value == 1.0
  {
    var base := ExtractBaseSymbol(symbol);
    PointValuesAtLeast();
    LookupFinds(PointValues(), base, 0.5);
    Lookup(PointValues(), base).GetOr(DefaultPointValue)
  }

  /** The fee table's keys are those of its groups, in order. */
  lemma FeeKeysByGroup()
    ensures Keys(ExchangeFees()) == Keys(EquityIndexFees) + Keys(FxFees) + Keys(MetalFees)
      + Keys(EnergyFees) + Keys(AgriculturalFees)
  {
    KeysAppend(EquityIndexFees, FxFees);
    KeysAppend(EquityIndexFees + FxFees, MetalFees);
    KeysAppend(EquityIndexFees + FxFees + MetalFees, EnergyFees);
    KeysAppend(EquityIndexFees + FxFees + MetalFees + EnergyFees, AgriculturalFees);
  }

  /** No lower-case letter and no whitespace at either end. */
  predicate Bare(s: string) {
    (forall i :: 0 <= i < |s| ==> !('a' <= s[i] <= 'z')) &&
    (s == [] || (!IsSpace(s[0]) && !IsSpace(s[|s| - 1])))
  }

  /** `k` is the key of entry `index` of the fee table. */
  predicate TableKey(k: string, index: nat) {
    index < |ExchangeFees()| && ExchangeFees()[index].0 == k
  }

  /** An id already upper-case and without surrounding whitespace is its own normal form. */
  lemma NormalizeUnchanged(s: string)
    requires Bare(s)
    ensures Normalize(s) == s
  {
    UpperNoLower(s);
    StripUnpadded(s);
  }

  /** Outside the dotted form, a three-character fee-table key that prefixes the id is the answer. */
  lemma ThreeCharacterKeyWins(symbol: string, k: string)
    requires !IsDottedContract(Normalize(symbol))
    requires k in Keys(ExchangeFees()) && |k| == 3 && StartsWith(Normalize(symbol), k)
    ensures ExtractBaseSymbol(symbol) == k
  {
    BaseSymbolLongestKey(symbol);
    BaseSymbolIsShortPrefix(symbol);
  }

  /** Of two prefixes of `n`, one two long and one two or three long but not the first three characters, both are the same. */
  lemma PrefixOfTwo(n: string, b: string, k: string)
    requires StartsWith(n, b) && StartsWith(n, k) && |k| == 2 && 2 <= |b| <= 3
    requires |n| < 3 || n[..3] != b
    ensures b == k
  {
    assert n[..|b|] == b;
  }

  /**
   * Outside the dotted form, a two-character key that prefixes the id is the answer when
   * the id's first three characters are not a key.
   */
  lemma TwoCharacterKeyWins(symbol: string, k: string)
    requires !IsDottedContract(Normalize(symbol))
    requires k in Keys(ExchangeFees()) && |k| == 2 && StartsWith(Normalize(symbol), k)
    requires |Normalize(symbol)| < 3 || Normalize(symbol)[..3] !in Keys(ExchangeFees())
    ensures ExtractBaseSymbol(symbol) == k
  {
    BaseSymbolLongestKey(symbol);
    BaseSymbolIsShortPrefix(symbol);
    var n, b := Normalize(symbol), ExtractBaseSymbol(symbol);
    PrefixOfTwo(n, b, k);
  }

  /**
   * `CON.F.<exchange>.<base>.<rest>` with dot-free exchange and base segments is a dotted
   * contract whose fourth segment is the base.
   */
  lemma DottedSegments(exchange: string, base: string, rest: string)
    requires '.' !in exchange && '.' !in base
    ensures StartsWith("CON.F." + exchange + "." + base + "." + rest, "CON.F.")
    ensures |Split("CON.F." + exchange + "." + base + "." + rest, '.')| >= 4
    ensures Split("CON.F." + exchange + "." + base + "." + rest, '.')[3] == base
  {
    var s := "CON.F." + exchange + "." + base + "." + rest;
    assert s == "CON" + ['.'] + ("F" + ['.'] + (exchange + ['.'] + (base + ['.'] + rest)));
    SplitAtSeparator(base, '.', rest);
    SplitAtSeparator(exchange, '.', base + ['.'] + rest);
    SplitAtSeparator("F", '.', exchange + ['.'] + (base + ['.'] + rest));
    SplitAtSeparator("CON", '.', "F" + ['.'] + (exchange + ['.'] + (base + ['.'] + rest)));
    assert s[..6] == "CON.F.";
  }

  /** A normalised dotted id yields its base segment through the alias map. */
  lemma DottedContractBase(exchange: string, base: string, rest: string)
    requires '.' !in exchange && '.' !in base
    requires Normalize("CON.F." + exchange + "." + base + "." + rest) == "CON.F." + exchange + "." + base + "." + rest
    ensures ExtractBaseSymbol("CON.F." + exchange + "." + base + "." + rest) == SymbolAlias(base)
  {
    DottedSegments(exchange, base, rest);
  }

  /** An id whose first character is not `C` is not in the dotted form. */
  lemma NotDotted(s: string)
    requires |s| > 0 && s[0] != 'C'
    ensures !IsDottedContract(s)
  {
    assert !StartsWith(s, "CON.F.");
  }

  /** `CON.F.US.MNQ.H26` -> `MNQ` */
  lemma ExampleDottedMicroNasdaq(symbol: string)
    requires symbol == "CON.F.US.MNQ.H26"
    ensures ExtractBaseSymbol(symbol) == "MNQ"
  {
    assert Normalize(symbol) == symbol by {
      NormalizeUnchanged(symbol);
    }
    assert symbol == "CON.F." + "US" + "." + "MNQ" + "." + "H26";
    DottedContractBase("US", "MNQ", "H26");
  }

  /** `CON.F.US.ENQ.H26` -> `NQ`, through the alias map. */
  lemma ExampleDottedNasdaqAlias(symbol: string)
    requires symbol == "CON.F.US.ENQ.H26"
    ensures ExtractBaseSymbol(symbol) == "NQ"
  {
    assert Normalize(symbol) == symbol by {
      NormalizeUnchanged(symbol);
    }
    assert symbol == "CON.F." + "US" + "." + "ENQ" + "." + "H26";
    DottedContractBase("US", "ENQ", "H26");
  }

  /** Entry `i` of the key list is the key of entry `i` of the table. */
  lemma {:induction false} KeyAt(t: Table, i: nat)
    requires i < |t|
    ensures Keys(t)[i] == t[i].0
    decreases i
  {
    if i > 0 {
      KeyAt(t[1..], i - 1);
    }
  }

  /** A three-character string that does not begin with `M`, `R` or `S` is not a fee-table key. */
  lemma NotThreeCharacterKey(k: string)
    requires |k| == 3 && k[0] != 'M' && k[0] != 'R' && k[0] != 'S'
    ensures k !in Keys(ExchangeFees())
  {
    FeeKeysShort();
  }

  /**
   * An id with no lower-case letter and no surrounding whitespace that does not begin
   * with `C` and whose first three characters are the key of fee-table entry `index` gives that key.
   */
  lemma ThreeCharacterId(symbol: string, k: string, index: nat)
    requires Bare(symbol) && |symbol| >= 3 && symbol[0] != 'C' && TableKey(k, index) && symbol[..3] == k
    ensures ExtractBaseSymbol(symbol) == k
  {
    KeyAt(ExchangeFees(), index);
    NormalizeUnchanged(symbol);
    NotDotted(symbol);
    ThreeCharacterKeyWins(symbol, k);
  }

  /** `MESZ4` -> `MES`: the three-letter key wins over shorter ones. */
  lemma ExampleMicroSp(symbol: string)
    requires symbol == "MESZ4"
    ensures ExtractBaseSymbol(symbol) == "MES"
  {
    assert symbol == "MES" + "Z4";
    ThreeCharacterId(symbol, "MES", 4);
  }

  /** `MNQ DEC24` -> `MNQ` */
  lemma ExampleMicroNasdaqSpaced(symbol: string)
    requires symbol == "MNQ DEC24"
    ensures ExtractBaseSymbol(symbol) == "MNQ"
  {
    assert symbol == "MNQ" + " DEC24";
    ThreeCharacterId(symbol, "MNQ", 5);
  }

  /** `SILH5` -> `SIL`, not `SI`: the longest key is taken. */
  lemma ExampleMicroSilver(symbol: string)
    requires symbol == "SILH5"
    ensures ExtractBaseSymbol(symbol) == "SIL"
  {
    assert symbol == "SIL" + "H5";
    ThreeCharacterId(symbol, "SIL", 23);
  }

  /**
   * An id with no lower-case letter and no surrounding whitespace that does not begin
   * with `C`, `M`, `R` or `S` and whose first two characters are the key of fee-table
   * entry `index` gives that key: it is not dotted and no three-character key prefixes it.
   */
  lemma TwoCharacterId(symbol: string, k: string, index: nat)
    requires Bare(symbol) && |symbol| >= 2 && TableKey(k, index) && symbol[..2] == k
    requires var c := symbol[0]; c != 'C' && c != 'M' && c != 'R' && c != 'S'
    ensures ExtractBaseSymbol(symbol) == k
  {
    KeyAt(ExchangeFees(), index);
    NormalizeUnchanged(symbol);
    NotDotted(symbol);
    if |symbol| >= 3 {
      NotThreeCharacterKey(symbol[..3]);
    }
    TwoCharacterKeyWins(symbol, k);
  }

  /** `ESH5` -> `ES` */
  lemma ExampleSp(symbol: string)
    requires symbol == "ESH5"
    ensures ExtractBaseSymbol(symbol) == "ES"
  {
    assert symbol == "ES" + "H5";
    TwoCharacterId(symbol, "ES", 0);
  }

  /** `NQZ24` -> `NQ` */
  lemma ExampleNasdaq(symbol: string)
    requires symbol == "NQZ24"
    ensures ExtractBaseSymbol(symbol) == "NQ"
  {
    assert symbol == "NQ" + "Z24";
    TwoCharacterId(symbol, "NQ", 1);
  }
}
