/**
 * The detail record of one recipe (`MealDetail`), its `CodingKeys` enum, its
 * hand-written decoder `init(from:)` and encoder `encode(to:)`.
 *
 * Both work on a keyed container, a map from the cases of `CodingKeys` to
 * JSON values; a JSON object is seen through such a container by looking
 * each case up under its raw value. The decoder trims the three optional
 * text fields and falls back to a fixed default only when a field is absent
 * or null; it collapses the twenty numbered fields `strIngredient1..20` and
 * `strMeasure1..20` into two ordered sequences, skipping every field that is
 * absent, null or not a string, and dropping every value that trims to the
 * empty string. The encoder writes the sequences back under keys numbered
 * from 1.
 */
module MealDetails {
  import opened Wrappers
  import opened Json
  import opened Text

  /** The decoded detail record. */
  datatype MealDetail = MealDetail(
    id: string,
    strMeal: Option<string>,
    strInstructions: Option<string>,
    strMealThumb: Option<string>,
    strIngredients: seq<string>,
    strMeasures: seq<string>)

  const DefaultMealName := "Default Meal Name"
  const DefaultInstructions := "Default Instructions"
  const DefaultMealThumb := "Default Meal Thumbnail"

  /** The number of numbered fields of each series. */
  const FieldCount := 20

  /** The two series of numbered fields. */
  datatype Series = Ingredients | Measures

  /**
   * A key of the `CodingKeys` enum: `id`, the three optional text fields and
   * a numbered field of a series. Only the numbers 1 to 20 are cases of the
   * enum (see `IsCase`).
   */
  datatype CodingKey =
    | Id
    | StrMeal
    | StrInstructions
    | StrMealThumb
    | Numbered(series: Series, n: nat)

  /** `k` is one of the 44 cases the enum declares. */
  predicate IsCase(k: CodingKey) {
    k.Numbered? ==> 1 <= k.n <= FieldCount
  }

  /** The cases of the enum. */
  const AllCases: set<CodingKey> :=
    {Id, StrMeal, StrInstructions, StrMealThumb}
    + (set n: nat | 1 <= n <= FieldCount :: Numbered(Ingredients, n))
    + (set n: nat | 1 <= n <= FieldCount :: Numbered(Measures, n))

  /** A keyed container: the values found under the cases of `CodingKeys`. */
  type Container = map<CodingKey, Json>

  function Prefix(series: Series): string {
    match series
    case Ingredients => "strIngredient"
    case Measures => "strMeasure"
  }

  /** The raw value of a key; `id` is renamed to `idMeal`, a numbered key is its prefix followed by its number. */
  function RawValue(k: CodingKey): string {
    match k
    case Id => "idMeal"
    case StrMeal => "strMeal"
    case StrInstructions => "strInstructions"
    case StrMealThumb => "strMealThumb"
    case Numbered(series, n) => Prefix(series) + Decimal(n)
  }

  /**
   * `CodingKeys(rawValue: "strIngredient\(i)")` and
   * `CodingKeys(rawValue: "strMeasure\(i)")`: a case exactly for i in
   * 1...20 (`RawValueNumbered` shows that no other case has that raw value).
   */
  function NumberedKey(series: Series, i: nat): (r: Option<CodingKey>)
    ensures r.Some? <==> 1 <= i <= FieldCount
    ensures r.Some? ==> IsCase(r.value)
  {
    if 1 <= i <= FieldCount then Some(Numbered(series, i)) else None
  }

  // ---------------------------------------------------------------------
  // Keys

  lemma AllCasesAreCases(k: CodingKey)
    ensures k in AllCases <==> IsCase(k)
  {
    if IsCase(k) && k.Numbered? {
      match k.series
      case Ingredients =>
        assert k in (set n: nat | 1 <= n <= FieldCount :: Numbered(Ingredients, n));
      case Measures =>
        assert k in (set n: nat | 1 <= n <= FieldCount :: Numbered(Measures, n));
    }
  }

  /** Numbered raw values of different series or numbers differ. */
  lemma NumberedRawValueInjective(s: Series, i: nat, t: Series, j: nat)
    requires Prefix(s) + Decimal(i) == Prefix(t) + Decimal(j)
    ensures s == t && i == j
  {
    var a, b := Prefix(s) + Decimal(i), Prefix(t) + Decimal(j);
    assert a[3] == Prefix(s)[3] && b[3] == Prefix(t)[3];
    assert s == t;
    var p := Prefix(s);
    calc {
      Decimal(i);
      (p + Decimal(i))[|p|..];
      (p + Decimal(j))[|p|..];
      Decimal(j);
    }
    DecimalInjective(i, j);
  }

  /** No numbered raw value is the raw value of one of the four single keys. */
  lemma NumberedRawValueNotSingle(s: Series, i: nat)
    ensures Prefix(s) + Decimal(i) !in {"idMeal", "strMeal", "strInstructions", "strMealThumb"}
  {
    var k := Prefix(s) + Decimal(i);
    assert k[0] == 's' && k[3] == Prefix(s)[3];
    match s
    case Ingredients =>
      assert k[5] == 'g';
    case Measures =>
      assert k[6] == 's';
  }

  /** Different keys have different raw values. */
  lemma RawValueInjective(k: CodingKey, k': CodingKey)
    requires RawValue(k) == RawValue(k')
    ensures k == k'
  {
    match k
    case Numbered(s, i) =>
      NumberedRawValueNotSingle(s, i);
      if k'.Numbered? {
        NumberedRawValueInjective(s, i, k'.series, k'.n);
      }
    case _ =>
      if k'.Numbered? {
        NumberedRawValueNotSingle(k'.series, k'.n);
      }
  }

  /**
   * The raw value `"strIngredient\(i)"` (or `"strMeasure\(i)"`) belongs to
   * a case of the enum exactly when i is in 1...20, and then only to the
   * case `NumberedKey` returns: beyond 20 the force-unwrap `!` traps.
   */
  lemma RawValueNumbered(series: Series, i: nat, k: CodingKey)
    requires IsCase(k) && RawValue(k) == Prefix(series) + Decimal(i)
    ensures NumberedKey(series, i) == Some(k)
  {
    RawValueInjective(k, Numbered(series, i));
  }

  // ---------------------------------------------------------------------
  // Containers and JSON objects

  /**
   * `decoder.container(keyedBy: CodingKeys.self)` over a JSON object: each
   * case sees the member named by its raw value; members under other names
   * are ignored.
   */
  function KeyedContainer(obj: Object): (c: Container)
    ensures forall k :: k in c <==> IsCase(k) && RawValue(k) in obj
    ensures forall k :: k in c ==> c[k] == obj[RawValue(k)]
  {
    forall k ensures k in AllCases <==> IsCase(k) {
      AllCasesAreCases(k);
    }
    map k | k in AllCases && RawValue(k) in obj :: obj[RawValue(k)]
  }

  /** The JSON object a keyed container is written to: each value under its key's raw value. */
  function ObjectOf(c: Container): (obj: Object)
    ensures forall k :: k in c ==> RawValue(k) in obj && obj[RawValue(k)] == c[k]
    ensures forall name :: name in obj ==> exists k :: k in c && RawValue(k) == name
  {
    forall k, k' | RawValue(k) == RawValue(k') ensures k == k' {
      RawValueInjective(k, k');
    }
    map k | k in c :: RawValue(k) := c[k]
  }

  /** Reading back the object a container of cases was written to gives the same container. */
  lemma KeyedContainerOfObject(c: Container)
    requires forall k :: k in c ==> IsCase(k)
    ensures KeyedContainer(ObjectOf(c)) == c
  {
    var obj := ObjectOf(c);
    forall k | IsCase(k) && RawValue(k) in obj ensures k in c {
      var k' :| k' in c && RawValue(k') == RawValue(k);
      RawValueInjective(k, k');
    }
  }

  // ---------------------------------------------------------------------
  // Decoding

  /**
   * `try container.decodeIfPresent(String.self, forKey: key)?.trimmingCharacters(in: .whitespaces) ?? default`:
   * a string is trimmed (a blank one becomes "", not the default), an absent
   * or null field gives the default, and any other value aborts the decode.
   */
  function DecodeSingle(c: Container, key: CodingKey, default: string): (r: Result<Option<string>, DecodingError<CodingKey>>)
    ensures r.Failure? <==> IsMistyped(c, key)
    ensures r.Failure? ==> r.error == TypeMismatch(key)
    ensures IsString(c, key) ==> r == Success(Some(Trim(c[key].s)))
    ensures IsString(c, key) && AllWhitespace(c[key].s) ==> r == Success(Some(""))
    ensures (key !in c || c[key].JNull?) ==> r == Success(Some(default))
  {
    TrimEmptyIff(if IsString(c, key) then c[key].s else "");
    match DecodeStringIfPresent(c, key)
    case Failure(e) => Failure(e)
    case Success(v) => Success(Some(match v case Some(s) => Trim(s) case None => default))
  }

  /** `try? container.decodeIfPresent(String.self, forKey: key)?.trimmingCharacters(in: .whitespaces)`. */
  function TryDecodeTrimmed(c: Container, key: CodingKey): (r: Option<string>)
    ensures r.Some? <==> IsString(c, key)
    ensures r.Some? ==> r.value == Trim(c[key].s)
  {
    match TryDecodeStringIfPresent(c, key)
    case Some(s) => Some(Trim(s))
    case None => None
  }

  /** The `compactMap` over the numbered fields from `i` to 20: every string field, trimmed, in order. */
  function CompactMapFields(c: Container, series: Series, i: nat): (r: seq<string>)
    requires 1 <= i <= FieldCount + 1
    ensures |r| <= FieldCount + 1 - i
    decreases FieldCount + 1 - i
  {
    if i > FieldCount then []
    else
      var key := NumberedKey(series, i).value;
      match TryDecodeTrimmed(c, key)
      case Some(t) => [t] + CompactMapFields(c, series, i + 1)
      case None => CompactMapFields(c, series, i + 1)
  }

  /** Every entry of the `compactMap` is trimmed. */
  lemma {:induction false} CompactMapTrimmed(c: Container, series: Series, i: nat)
    requires 1 <= i <= FieldCount + 1
    ensures forall x :: x in CompactMapFields(c, series, i) ==> Trimmed(x)
    decreases FieldCount + 1 - i
  {
    if i <= FieldCount {
      CompactMapTrimmed(c, series, i + 1);
    }
  }

  /** `.filter { !$0.isEmpty }`. */
  function DropEmpty(xs: seq<string>): (r: seq<string>)
    ensures |r| <= |xs|
  {
    if xs == [] then []
    else if xs[0] == "" then DropEmpty(xs[1..])
    else [xs[0]] + DropEmpty(xs[1..])
  }

  /** The filter keeps exactly the non-empty entries. */
  lemma {:induction false} DropEmptyMembers(xs: seq<string>)
    ensures forall x :: x in DropEmpty(xs) <==> x in xs && x != ""
  {
    if xs != [] {
      DropEmptyMembers(xs[1..]);
      assert xs == [xs[0]] + xs[1..];
    }
  }

  /**
   * One series of numbered fields collapsed into a sequence: at most 20
   * entries, none empty, each already trimmed.
   */
  function DecodeSeries(c: Container, series: Series): (r: seq<string>)
    ensures |r| <= FieldCount
    ensures forall x :: x in r ==> x != "" && Trimmed(x)
  {
    CompactMapTrimmed(c, series, 1);
    DropEmptyMembers(CompactMapFields(c, series, 1));
    DropEmpty(CompactMapFields(c, series, 1))
  }

  /**
   * `MealDetail.init(from:)`. Only `idMeal` (absent, null or not a string)
   * and a non-string value in one of the three single fields make the
   * decode fail; the numbered fields never do.
   */
  function DecodeDetail(c: Container): (r: Result<MealDetail, DecodingError<CodingKey>>)
    ensures r.Success? <==>
      && IsString(c, Id)
      && !IsMistyped(c, StrMeal)
      && !IsMistyped(c, StrInstructions)
      && !IsMistyped(c, StrMealThumb)
    ensures Id !in c ==> r == Failure(KeyNotFound(Id))
    ensures Id in c && c[Id].JNull? ==> r == Failure(ValueNotFound(Id))
    ensures r.Success? ==>
      && r.value.id == c[Id].s
      && r.value.strMeal == DecodeSingle(c, StrMeal, DefaultMealName).value
      && r.value.strInstructions == DecodeSingle(c, StrInstructions, DefaultInstructions).value
      && r.value.strMealThumb == DecodeSingle(c, StrMealThumb, DefaultMealThumb).value
      && r.value.strIngredients == DecodeSeries(c, Ingredients)
      && r.value.strMeasures == DecodeSeries(c, Measures)
  {
    match DecodeString(c, Id)
    case Failure(e) => Failure(e)
    case Success(id) =>
      match DecodeSingle(c, StrMeal, DefaultMealName)
      case Failure(e) => Failure(e)
      case Success(meal) =>
        match DecodeSingle(c, StrInstructions, DefaultInstructions)
        case Failure(e) => Failure(e)
        case Success(instructions) =>
          match DecodeSingle(c, StrMealThumb, DefaultMealThumb)
          case Failure(e) => Failure(e)
          case Success(thumb) =>
            Success(MealDetail(id, meal, instructions, thumb,
                               DecodeSeries(c, Ingredients), DecodeSeries(c, Measures)))
  }

  // ---------------------------------------------------------------------
  // Encoding

  /** `container.encode(_: String?, forKey:)`: `nil` is written as null. */
  function OptionalJson(v: Option<string>): Json {
    match v
    case Some(s) => JString(s)
    case None => JNull
  }

  /** The four single fields as `encode(to:)` writes them. */
  function EncodedSingles(d: MealDetail): Container {
    map[Id := JString(d.id),
        StrMeal := OptionalJson(d.strMeal),
        StrInstructions := OptionalJson(d.strInstructions),
        StrMealThumb := OptionalJson(d.strMealThumb)]
  }

  /** `xs` written under the keys of `series` numbered from 1, one key after the other. */
  function EncodedSeries(series: Series, xs: seq<string>): Container
    requires |xs| <= FieldCount
  {
    if xs == [] then map[]
    else EncodedSeries(series, xs[..|xs| - 1])[NumberedKey(series, |xs|).value := JString(xs[|xs| - 1])]
  }

  /** The container that `encode(to:)` fills in, when it does not trap. */
  function Encoded(d: MealDetail): Container
    requires |d.strIngredients| <= FieldCount && |d.strMeasures| <= FieldCount
  {
    EncodedSingles(d) + EncodedSeries(Ingredients, d.strIngredients) + EncodedSeries(Measures, d.strMeasures)
  }

  /**
   * `MealDetail.encode(to:)`: writes the single fields, then each ingredient
   * and each measure under its numbered key. A 21st entry would have no
   * coding key and trap, hence the precondition.
   */
  method Encode(d: MealDetail) returns (c: Container)
    requires |d.strIngredients| <= FieldCount && |d.strMeasures| <= FieldCount
    ensures c == Encoded(d)
  {
    c := map[];
    c := c[Id := JString(d.id)];
    c := c[StrMeal := OptionalJson(d.strMeal)];
    c := c[StrInstructions := OptionalJson(d.strInstructions)];
    c := c[StrMealThumb := OptionalJson(d.strMealThumb)];
    ghost var singles := c;

    for index := 0 to |d.strIngredients|
      invariant c == singles + EncodedSeries(Ingredients, d.strIngredients[..index])
    {
      var key := NumberedKey(Ingredients, index + 1).value;
      EncodedSeriesStep(Ingredients, d.strIngredients, index);
      UnionUpdate(singles, EncodedSeries(Ingredients, d.strIngredients[..index]), key, JString(d.strIngredients[index]));
      c := c[key := JString(d.strIngredients[index])];
    }
    assert d.strIngredients[..|d.strIngredients|] == d.strIngredients;
    ghost var withIngredients := c;

    for index := 0 to |d.strMeasures|
      invariant c == withIngredients + EncodedSeries(Measures, d.strMeasures[..index])
    {
      var key := NumberedKey(Measures, index + 1).value;
      EncodedSeriesStep(Measures, d.strMeasures, index);
      UnionUpdate(withIngredients, EncodedSeries(Measures, d.strMeasures[..index]), key, JString(d.strMeasures[index]));
      c := c[key := JString(d.strMeasures[index])];
    }
    assert d.strMeasures[..|d.strMeasures|] == d.strMeasures;
  }

  /** Writing one more entry of a series adds it under the next numbered key. */
  lemma EncodedSeriesStep(series: Series, xs: seq<string>, index: nat)
    requires index < |xs| <= FieldCount
    ensures EncodedSeries(series, xs[..index + 1])
         == EncodedSeries(series, xs[..index])[Numbered(series, index + 1) := JString(xs[index])]
  {
    assert xs[..index + 1][..index] == xs[..index];
  }

  /** Updating the right operand of a union updates the union. */
  lemma UnionUpdate<K, V>(a: map<K, V>, b: map<K, V>, k: K, v: V)
    ensures a + b[k := v] == (a + b)[k := v]
  {
  }
}
