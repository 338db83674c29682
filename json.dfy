/**
 * Already-parsed JSON values and the primitives of Swift's keyed decoding
 * container that the decoders of the app use: `decode(String.self, forKey:)`,
 * `decodeIfPresent(String.self, forKey:)` and the same under `try?`.
 * Also the decimal rendering of a number by string interpolation, which the
 * app uses to build the numbered keys `strIngredient1` ... `strMeasure20`.
 */
module Json {
  import opened Wrappers

  /** A parsed JSON value; numbers are kept as integers. */
  datatype Json =
    | JNull
    | JBool(b: bool)
    | JNumber(n: int)
    | JString(s: string)
    | JArray(items: seq<Json>)
    | JObject(fields: map<string, Json>)

  /** The members of one JSON object. */
  type Object = map<string, Json>

  /**
   * The cases of Foundation's `DecodingError` that these decoders can throw,
   * each carrying the key it is about: a string key of a JSON object, or a
   * case of a `CodingKeys` enum.
   */
  datatype DecodingError<K> =
    | KeyNotFound(key: K)
    | ValueNotFound(key: K)
    | TypeMismatch(key: K)
    | DataCorrupted

  /** True when `key` is present and holds a JSON string. */
  predicate IsString<K>(obj: map<K, Json>, key: K) {
    key in obj && obj[key].JString?
  }

  /** True when `key` is present and holds something that is neither a string nor null. */
  predicate IsMistyped<K>(obj: map<K, Json>, key: K) {
    key in obj && !obj[key].JString? && !obj[key].JNull?
  }

  /** `container.decode(String.self, forKey: key)`: the key must be present and hold a string. */
  function DecodeString<K>(obj: map<K, Json>, key: K): (r: Result<string, DecodingError<K>>)
    ensures r.Success? <==> IsString(obj, key)
    ensures r.Success? ==> r.value == obj[key].s
    ensures key !in obj ==> r == Failure(KeyNotFound(key))
    ensures key in obj && obj[key].JNull? ==> r == Failure(ValueNotFound(key))
  {
    if key !in obj then Failure(KeyNotFound(key))
    else match obj[key]
      case JString(s) => Success(s)
      case JNull => Failure(ValueNotFound(key))
      case _ => Failure(TypeMismatch(key))
  }

  /** `container.decodeIfPresent(String.self, forKey: key)`: absent or null is `nil`, a non-string throws. */
  function DecodeStringIfPresent<K>(obj: map<K, Json>, key: K): (r: Result<Option<string>, DecodingError<K>>)
    ensures r.Failure? <==> IsMistyped(obj, key)
    ensures r.Failure? ==> r.error == TypeMismatch(key)
    ensures r.Success? ==> (r.value.Some? <==> IsString(obj, key))
    ensures r.Success? && r.value.Some? ==> r.value.value == obj[key].s
  {
    if key !in obj then Success(None)
    else match obj[key]
      case JString(s) => Success(Some(s))
      case JNull => Success(None)
      case _ => Failure(TypeMismatch(key))
  }

  /** `try? container.decodeIfPresent(String.self, forKey: key)`: a thrown error becomes `nil` too. */
  function TryDecodeStringIfPresent<K>(obj: map<K, Json>, key: K): (r: Option<string>)
    ensures r.Some? <==> IsString(obj, key)
    ensures r.Some? ==> r.value == obj[key].s
  {
    match DecodeStringIfPresent(obj, key)
    case Success(v) => v
    case Failure(_) => None
  }

  /** The character of one decimal digit. */
  function DigitChar(d: nat): char
    requires d < 10
  {
    "0123456789"[d]
  }

  /** The decimal rendering of `n`, as Swift's string interpolation `"\(n)"` writes it. */
  function Decimal(n: nat): (r: string)
    ensures |r| >= 1
    ensures n < 10 <==> |r| == 1
  {
    if n < 10 then [DigitChar(n)] else Decimal(n / 10) + [DigitChar(n % 10)]
  }

  /** Different numbers have different decimal renderings. */
  lemma {:induction false} DecimalInjective(a: nat, b: nat)
    requires Decimal(a) == Decimal(b)
    ensures a == b
  {
    if a >= 10 && b >= 10 {
      var da, db := Decimal(a), Decimal(b);
      assert DigitChar(a % 10) == da[|da| - 1] == db[|db| - 1] == DigitChar(b % 10);
      assert Decimal(a / 10) == da[..|da| - 1] == db[..|db| - 1] == Decimal(b / 10);
      DecimalInjective(a / 10, b / 10);
    }
  }
}
