/**
 * What the decoder and encoder of `MealDetail` promise: which numbered
 * fields end up in the two sequences and in what order, that fields that
 * are not strings contribute nothing, that the two series are independent,
 * and that decoding an encoded record gives the record back.
 */
module MealDetailLaws {
  import opened Wrappers
  import opened Json
  import opened Text
  import opened MealDetails

  // ---------------------------------------------------------------------
  // Which fields make it into a series

  /** Field `i` of `series` holds a string that is not all whitespace. */
  predicate Kept(c: Container, series: Series, i: nat) {
    var k := Numbered(series, i);
    IsString(c, k) && !AllWhitespace(c[k].s)
  }

  /** The numbers from `i` to 20 of the kept fields, ascending. */
  function KeptFrom(c: Container, series: Series, i: nat): (idx: seq<nat>)
    requires 1 <= i <= FieldCount + 1
    ensures forall j :: 0 <= j < |idx| ==> i <= idx[j] <= FieldCount && IsString(c, Numbered(series, idx[j]))
    decreases FieldCount + 1 - i
  {
    if i > FieldCount then []
    else if Kept(c, series, i) then [i] + KeptFrom(c, series, i + 1)
    else KeptFrom(c, series, i + 1)
  }

  /** The numbers of the kept fields come in ascending order. */
  lemma {:induction false} KeptFromAscending(c: Container, series: Series, i: nat)
    requires 1 <= i <= FieldCount + 1
    ensures forall j, j' :: 0 <= j < j' < |KeptFrom(c, series, i)| ==>
      KeptFrom(c, series, i)[j] < KeptFrom(c, series, i)[j']
    decreases FieldCount + 1 - i
  {
    if i <= FieldCount {
      KeptFromAscending(c, series, i + 1);
      var rest := KeptFrom(c, series, i + 1);
      if Kept(c, series, i) {
        var idx := [i] + rest;
        assert KeptFrom(c, series, i) == idx;
        forall j, j' | 0 <= j < j' < |idx| ensures idx[j] < idx[j'] {
          assert idx[j'] == rest[j' - 1] >= i + 1;
          if j > 0 {
            assert idx[j] == rest[j - 1];
          } else {
            assert idx[j] == i;
          }
        }
      }
    }
  }

  /** Only kept fields are among the kept numbers. */
  lemma {:induction false} KeptFromSound(c: Container, series: Series, i: nat)
    requires 1 <= i <= FieldCount + 1
    ensures forall j :: 0 <= j < |KeptFrom(c, series, i)| ==> Kept(c, series, KeptFrom(c, series, i)[j])
    decreases FieldCount + 1 - i
  {
    if i <= FieldCount {
      KeptFromSound(c, series, i + 1);
      var rest := KeptFrom(c, series, i + 1);
      if Kept(c, series, i) {
        var idx := [i] + rest;
        assert KeptFrom(c, series, i) == idx;
        forall j | 0 <= j < |idx| ensures Kept(c, series, idx[j]) {
          if j > 0 {
            assert idx[j] == rest[j - 1];
          } else {
            assert idx[j] == i;
          }
        }
      }
    }
  }

  /** One field of the kept numbers: a kept field puts its number in front. */
  lemma KeptFromStep(c: Container, series: Series, i: nat)
    requires 1 <= i <= FieldCount
    ensures KeptFrom(c, series, i) == (if Kept(c, series, i) then [i] else []) + KeptFrom(c, series, i + 1)
  {
    if !Kept(c, series, i) {
      assert [] + KeptFrom(c, series, i + 1) == KeptFrom(c, series, i + 1);
    }
  }

  /** Every kept field from `i` on is among the kept numbers. */
  lemma {:induction false} KeptFromComplete(c: Container, series: Series, i: nat, n: nat)
    requires 1 <= i <= n <= FieldCount && Kept(c, series, n)
    ensures n in KeptFrom(c, series, i)
    decreases FieldCount + 1 - i
  {
    KeptFromStep(c, series, i);
    if n != i {
      KeptFromComplete(c, series, i + 1, n);
    }
  }

  /** `DropEmpty` of a sequence with a first entry. */
  lemma DropEmptyCons(t: string, rest: seq<string>)
    ensures DropEmpty([t] + rest) == if t == "" then DropEmpty(rest) else [t] + DropEmpty(rest)
  {
    assert ([t] + rest)[0] == t && ([t] + rest)[1..] == rest;
  }

  /** The trimmed string in field `n` of `series` ("" when the field holds no string). */
  function TrimmedValue(c: Container, series: Series, n: nat): string {
    var k := Numbered(series, n);
    if IsString(c, k) then Trim(c[k].s) else ""
  }

  /** The trimmed strings of the fields numbered `idx`, in that order. */
  function TrimmedValues(c: Container, series: Series, idx: seq<nat>): (r: seq<string>)
    ensures |r| == |idx|
  {
    if idx == [] then [] else [TrimmedValue(c, series, idx[0])] + TrimmedValues(c, series, idx[1..])
  }

  lemma TrimmedValuesCons(c: Container, series: Series, n: nat, idx: seq<nat>)
    ensures TrimmedValues(c, series, [n] + idx) == [TrimmedValue(c, series, n)] + TrimmedValues(c, series, idx)
  {
    assert ([n] + idx)[0] == n && ([n] + idx)[1..] == idx;
  }

  lemma {:induction false} TrimmedValuesAt(c: Container, series: Series, idx: seq<nat>, j: nat)
    requires j < |idx|
    ensures TrimmedValues(c, series, idx)[j] == TrimmedValue(c, series, idx[j])
  {
    if j > 0 {
      TrimmedValuesAt(c, series, idx[1..], j - 1);
    }
  }

  /** One field of the `compactMap`: a string field adds its trimmed value in front, any other field adds nothing. */
  lemma CompactStep(c: Container, series: Series, i: nat)
    requires 1 <= i <= FieldCount
    ensures CompactMapFields(c, series, i)
         == (if IsString(c, Numbered(series, i)) then [Trim(c[Numbered(series, i)].s)] else [])
            + CompactMapFields(c, series, i + 1)
  {
    assert NumberedKey(series, i).value == Numbered(series, i);
  }

  /** One field of the collapse: a kept field adds its trimmed value in front, any other field adds nothing. */
  lemma CollapseStep(c: Container, series: Series, i: nat)
    requires 1 <= i <= FieldCount
    ensures DropEmpty(CompactMapFields(c, series, i))
         == (if Kept(c, series, i) then [TrimmedValue(c, series, i)] else []) + DropEmpty(CompactMapFields(c, series, i + 1))
  {
    var key := Numbered(series, i);
    var rest := CompactMapFields(c, series, i + 1);
    CompactStep(c, series, i);
    if IsString(c, key) {
      var t := Trim(c[key].s);
      assert CompactMapFields(c, series, i) == [t] + rest;
      DropEmptyCons(t, rest);
      TrimEmptyIff(c[key].s);
    } else {
      assert CompactMapFields(c, series, i) == [] + rest;
    }
  }

  /** The collapse from field `i` on, given the collapse from field `i + 1` on. */
  lemma CollapseFromStep(c: Container, series: Series, i: nat)
    requires 1 <= i <= FieldCount
    requires DropEmpty(CompactMapFields(c, series, i + 1)) == TrimmedValues(c, series, KeptFrom(c, series, i + 1))
    ensures DropEmpty(CompactMapFields(c, series, i)) == TrimmedValues(c, series, KeptFrom(c, series, i))
  {
    CollapseStep(c, series, i);
    KeptFromStep(c, series, i);
    if Kept(c, series, i) {
      TrimmedValuesCons(c, series, i, KeptFrom(c, series, i + 1));
    }
  }

  /** The collapse of the fields from `i` on keeps the trimmed values of the kept fields, in order. */
  lemma {:induction false} CollapseFrom(c: Container, series: Series, i: nat)
    requires 1 <= i <= FieldCount + 1
    ensures DropEmpty(CompactMapFields(c, series, i)) == TrimmedValues(c, series, KeptFrom(c, series, i))
    decreases FieldCount + 1 - i
  {
    if i <= FieldCount {
      CollapseFrom(c, series, i + 1);
      CollapseFromStep(c, series, i);
    }
  }

  /**
   * A decoded series is exactly the trimmed values of the kept fields, in
   * the order of their numbers: field i contributes iff it holds a string
   * that is not all whitespace.
   */
  lemma SeriesCharacterised(c: Container, series: Series)
    ensures DecodeSeries(c, series) == TrimmedValues(c, series, KeptFrom(c, series, 1))
    ensures forall j :: 0 <= j < |KeptFrom(c, series, 1)| ==>
      DecodeSeries(c, series)[j] == Trim(c[Numbered(series, KeptFrom(c, series, 1)[j])].s)
    ensures forall j, j' :: 0 <= j < j' < |KeptFrom(c, series, 1)| ==>
      KeptFrom(c, series, 1)[j] < KeptFrom(c, series, 1)[j']
    ensures forall n :: 1 <= n <= FieldCount ==> (n in KeptFrom(c, series, 1) <==> Kept(c, series, n))
  {
    var idx := KeptFrom(c, series, 1);
    CollapseFrom(c, series, 1);
    forall j | 0 <= j < |idx| ensures DecodeSeries(c, series)[j] == Trim(c[Numbered(series, idx[j])].s) {
      TrimmedValuesAt(c, series, idx, j);
    }
    KeptFromAscending(c, series, 1);
    KeptFromSound(c, series, 1);
    forall n | 1 <= n <= FieldCount && Kept(c, series, n) ensures n in idx {
      KeptFromComplete(c, series, 1, n);
    }
  }

  // ---------------------------------------------------------------------
  // What a series depends on

  lemma {:induction false} CompactReadsOnlyStrings(c: Container, c': Container, series: Series, i: nat)
    requires 1 <= i <= FieldCount + 1
    requires forall n :: i <= n <= FieldCount ==>
      TryDecodeStringIfPresent(c, Numbered(series, n)) == TryDecodeStringIfPresent(c', Numbered(series, n))
    ensures CompactMapFields(c, series, i) == CompactMapFields(c', series, i)
    decreases FieldCount + 1 - i
  {
    if i <= FieldCount {
      CompactReadsOnlyStrings(c, c', series, i + 1);
      CompactStep(c, series, i);
      CompactStep(c', series, i);
      var k := Numbered(series, i);
      assert TryDecodeStringIfPresent(c, k) == TryDecodeStringIfPresent(c', k);
    }
  }

  /**
   * A series depends only on which of its own twenty fields hold strings
   * and what those strings are: an absent field, a null and a value of any
   * other type are interchangeable.
   */
  lemma SeriesReadsOnlyStrings(c: Container, c': Container, series: Series)
    requires forall n :: 1 <= n <= FieldCount ==>
      TryDecodeStringIfPresent(c, Numbered(series, n)) == TryDecodeStringIfPresent(c', Numbered(series, n))
    ensures DecodeSeries(c, series) == DecodeSeries(c', series)
  {
    CompactReadsOnlyStrings(c, c', series, 1);
  }

  /** Absent, null and mistyped numbered fields contribute nothing. */
  lemma NonStringFieldContributesNothing(c: Container, series: Series, n: nat, v: Json)
    requires !v.JString?
    ensures DecodeSeries(c[Numbered(series, n) := v], series) == DecodeSeries(c - {Numbered(series, n)}, series)
  {
    SeriesReadsOnlyStrings(c[Numbered(series, n) := v], c - {Numbered(series, n)}, series);
  }

  /**
   * The ingredients and the measures are filtered independently: changing a
   * field of one series leaves the other series as it was, so entry i of
   * one is never dropped because entry i of the other was.
   */
  lemma SeriesIndependent(c: Container, series: Series, other: Series, n: nat, v: Json)
    requires series != other
    ensures DecodeSeries(c[Numbered(other, n) := v], series) == DecodeSeries(c, series)
  {
    SeriesReadsOnlyStrings(c[Numbered(other, n) := v], c, series);
  }

  lemma {:induction false} CompactEmptyWhenAbsent(c: Container, series: Series, i: nat)
    requires 1 <= i <= FieldCount + 1
    requires forall n :: i <= n <= FieldCount ==> Numbered(series, n) !in c
    ensures CompactMapFields(c, series, i) == []
    decreases FieldCount + 1 - i
  {
    if i <= FieldCount {
      CompactEmptyWhenAbsent(c, series, i + 1);
    }
  }

  /**
   * The two sequences can differ in length, so entry i of one need not
   * belong with entry i of the other: a detail whose only numbered fields
   * are ingredient 1 `" Sugar "` and a blank measure 1 decodes to one
   * ingredient and no measure, with the defaults for the absent text fields.
   */
  lemma LengthsCanDiffer(c: Container)
    requires IsString(c, Id) && StrMeal !in c && StrInstructions !in c && StrMealThumb !in c
    requires Numbered(Ingredients, 1) in c && c[Numbered(Ingredients, 1)] == JString(" Sugar ")
    requires Numbered(Measures, 1) in c && c[Numbered(Measures, 1)] == JString("  ")
    requires forall n :: 2 <= n <= FieldCount ==> Numbered(Ingredients, n) !in c && Numbered(Measures, n) !in c
    ensures DecodeDetail(c) == Success(MealDetail(c[Id].s, Some(DefaultMealName), Some(DefaultInstructions),
                                                  Some(DefaultMealThumb), ["Sugar"], []))
  {
    assert DecodeSeries(c, Ingredients) == ["Sugar"] by {
      CompactEmptyWhenAbsent(c, Ingredients, 2);
      TrimExamples();
      assert CompactMapFields(c, Ingredients, 1) == ["Sugar"] + [];
    }
    assert DecodeSeries(c, Measures) == [] by {
      CompactEmptyWhenAbsent(c, Measures, 2);
      TrimExamples();
      assert CompactMapFields(c, Measures, 1) == [""] + [];
    }
  }

  // ---------------------------------------------------------------------
  // Counting

  lemma {:induction false} KeptCountAllButOne(c: Container, series: Series, m: nat, i: nat)
    requires 1 <= m <= FieldCount && 1 <= i <= FieldCount + 1
    requires forall n :: 1 <= n <= FieldCount && n != m ==> Kept(c, series, n)
    requires !Kept(c, series, m)
    ensures |KeptFrom(c, series, i)| == FieldCount + 1 - i - (if i <= m then 1 else 0)
    decreases FieldCount + 1 - i
  {
    if i <= FieldCount {
      KeptCountAllButOne(c, series, m, i + 1);
    }
  }

  /**
   * Twenty non-blank ingredient fields of which one is missing give nineteen
   * ingredients.
   */
  lemma OneMissingFieldOfTwenty(c: Container, series: Series, m: nat)
    requires 1 <= m <= FieldCount
    requires forall n :: 1 <= n <= FieldCount && n != m ==> Kept(c, series, n)
    requires Numbered(series, m) !in c
    ensures |DecodeSeries(c, series)| == FieldCount - 1
  {
    KeptCountAllButOne(c, series, m, 1);
    SeriesCharacterised(c, series);
  }

  // ---------------------------------------------------------------------
  // Round trip

  /** No entry is empty and every entry is trimmed: what the decoder produces. */
  predicate Clean(xs: seq<string>) {
    forall x :: x in xs ==> x != "" && Trimmed(x)
  }

  /** A record as the decoder produces it. */
  predicate Canonical(d: MealDetail) {
    && d.strMeal.Some? && Trimmed(d.strMeal.value)
    && d.strInstructions.Some? && Trimmed(d.strInstructions.value)
    && d.strMealThumb.Some? && Trimmed(d.strMealThumb.value)
    && |d.strIngredients| <= FieldCount && Clean(d.strIngredients)
    && |d.strMeasures| <= FieldCount && Clean(d.strMeasures)
  }

  /** The fields of `series` in `c` hold `xs`, one string per field from 1, and nothing after. */
  predicate Holds(c: Container, series: Series, xs: seq<string>) {
    forall n :: 1 <= n <= FieldCount ==>
      TryDecodeStringIfPresent(c, Numbered(series, n)) == (if n <= |xs| then Some(xs[n - 1]) else None)
  }

  lemma {:induction false} CompactOfHeld(c: Container, series: Series, xs: seq<string>, i: nat)
    requires |xs| <= FieldCount && 1 <= i <= FieldCount + 1
    requires Holds(c, series, xs) && Clean(xs)
    ensures CompactMapFields(c, series, i) == if i <= |xs| then xs[i - 1..] else []
    decreases FieldCount + 1 - i
  {
    if i <= FieldCount {
      CompactOfHeld(c, series, xs, i + 1);
      CompactStep(c, series, i);
      assert TryDecodeStringIfPresent(c, Numbered(series, i)) == if i <= |xs| then Some(xs[i - 1]) else None;
      if i <= |xs| {
        assert Trim(xs[i - 1]) == xs[i - 1] by {
          assert xs[i - 1] in xs;
          TrimOfTrimmed(xs[i - 1]);
        }
        assert xs[i - 1..] == [xs[i - 1]] + xs[i..];
      }
    }
  }

  lemma {:induction false} DropEmptyOfClean(xs: seq<string>)
    requires Clean(xs)
    ensures DropEmpty(xs) == xs
  {
    if xs != [] {
      assert xs[0] in xs;
      DropEmptyOfClean(xs[1..]);
    }
  }

  /** Writing `xs` under its numbered keys puts entry i - 1 under key i, and nothing under any other key of the series. */
  lemma {:induction false} EncodedSeriesAt(series: Series, xs: seq<string>, n: nat)
    requires |xs| <= FieldCount
    ensures Numbered(series, n) in EncodedSeries(series, xs) <==> 1 <= n <= |xs|
    ensures 1 <= n <= |xs| ==> EncodedSeries(series, xs)[Numbered(series, n)] == JString(xs[n - 1])
  {
    if xs != [] {
      EncodedSeriesAt(series, xs[..|xs| - 1], n);
    }
  }

  /** Every key written for a series is a numbered key of that series. */
  lemma {:induction false} EncodedSeriesKeys(series: Series, xs: seq<string>, k: CodingKey)
    requires |xs| <= FieldCount
    requires k in EncodedSeries(series, xs)
    ensures k.Numbered? && k.series == series && 1 <= k.n <= |xs|
  {
    if k != Numbered(series, |xs|) {
      EncodedSeriesKeys(series, xs[..|xs| - 1], k);
    }
  }

  /** The entries of a record that belong to `series`. */
  function Entries(d: MealDetail, series: Series): seq<string> {
    match series
    case Ingredients => d.strIngredients
    case Measures => d.strMeasures
  }

  /** In the encoded container, field n of a series holds entry n - 1 of that series, if there is one. */
  lemma EncodedNumbered(d: MealDetail, series: Series, n: nat)
    requires |d.strIngredients| <= FieldCount && |d.strMeasures| <= FieldCount
    ensures Numbered(series, n) in Encoded(d) <==> 1 <= n <= |Entries(d, series)|
    ensures 1 <= n <= |Entries(d, series)| ==> Encoded(d)[Numbered(series, n)] == JString(Entries(d, series)[n - 1])
  {
    var other := match series case Ingredients => Measures case Measures => Ingredients;
    EncodedSeriesAt(series, Entries(d, series), n);
    if Numbered(series, n) in EncodedSeries(other, Entries(d, other)) {
      EncodedSeriesKeys(other, Entries(d, other), Numbered(series, n));
    }
  }

  /** The fields of `series` in the encoded container hold that series' entries, one per field from 1. */
  lemma EncodedHolds(d: MealDetail, series: Series)
    requires |d.strIngredients| <= FieldCount && |d.strMeasures| <= FieldCount
    ensures Holds(Encoded(d), series, Entries(d, series))
  {
    forall n | 1 <= n <= FieldCount
      ensures TryDecodeStringIfPresent(Encoded(d), Numbered(series, n))
           == (if n <= |Entries(d, series)| then Some(Entries(d, series)[n - 1]) else None)
    {
      EncodedNumbered(d, series, n);
    }
  }

  /** The single fields of the encoded container are the ones `EncodedSingles` writes. */
  lemma EncodedSingle(d: MealDetail, k: CodingKey)
    requires |d.strIngredients| <= FieldCount && |d.strMeasures| <= FieldCount
    requires !k.Numbered?
    ensures k in Encoded(d) && Encoded(d)[k] == EncodedSingles(d)[k]
  {
    if k in EncodedSeries(Ingredients, d.strIngredients) {
      EncodedSeriesKeys(Ingredients, d.strIngredients, k);
    }
    if k in EncodedSeries(Measures, d.strMeasures) {
      EncodedSeriesKeys(Measures, d.strMeasures, k);
    }
  }

  /**
   * Decoding an encoded record gives back its ingredients and measures,
   * provided each has at most 20 entries (more would trap in the encoder)
   * and every entry is non-empty and trimmed.
   */
  lemma SeriesRoundTrip(d: MealDetail, series: Series)
    requires |d.strIngredients| <= FieldCount && |d.strMeasures| <= FieldCount
    requires Clean(d.strIngredients) && Clean(d.strMeasures)
    ensures DecodeSeries(Encoded(d), series) == Entries(d, series)
  {
    var xs := Entries(d, series);
    EncodedHolds(d, series);
    CompactOfHeld(Encoded(d), series, xs, 1);
    DropEmptyOfClean(xs);
  }

  /** A record as the decoder produces it survives encoding and decoding unchanged. */
  lemma RoundTrip(d: MealDetail)
    requires Canonical(d)
    ensures DecodeDetail(Encoded(d)) == Success(d)
  {
    var c := Encoded(d);
    EncodedSingle(d, Id);
    EncodedSingle(d, StrMeal);
    EncodedSingle(d, StrInstructions);
    EncodedSingle(d, StrMealThumb);
    assert DecodeSingle(c, StrMeal, DefaultMealName) == Success(d.strMeal) by {
      TrimOfTrimmed(d.strMeal.value);
    }
    assert DecodeSingle(c, StrInstructions, DefaultInstructions) == Success(d.strInstructions) by {
      TrimOfTrimmed(d.strInstructions.value);
    }
    assert DecodeSingle(c, StrMealThumb, DefaultMealThumb) == Success(d.strMealThumb) by {
      TrimOfTrimmed(d.strMealThumb.value);
    }
    SeriesRoundTrip(d, Ingredients);
    SeriesRoundTrip(d, Measures);
  }

  /** The round trip through JSON: the container is written to an object and read back from it. */
  lemma JsonRoundTrip(d: MealDetail)
    requires Canonical(d)
    ensures DecodeDetail(KeyedContainer(ObjectOf(Encoded(d)))) == Success(d)
  {
    forall k | k in Encoded(d) ensures IsCase(k) {
      if k.Numbered? {
        if k in EncodedSeries(Ingredients, d.strIngredients) {
          EncodedSeriesKeys(Ingredients, d.strIngredients, k);
        } else {
          EncodedSeriesKeys(Measures, d.strMeasures, k);
        }
      }
    }
    KeyedContainerOfObject(Encoded(d));
    RoundTrip(d);
  }

  /** Every decoded record is canonical. */
  lemma DecodedIsCanonical(c: Container)
    requires DecodeDetail(c).Success?
    ensures Canonical(DecodeDetail(c).value)
  {
    assert Trimmed(DefaultMealName) && Trimmed(DefaultInstructions) && Trimmed(DefaultMealThumb);
  }

  /** Encoding a decoded record and decoding it again gives the same record. */
  lemma DecodeEncodeDecode(c: Container)
    requires DecodeDetail(c).Success?
    ensures DecodeDetail(Encoded(DecodeDetail(c).value)) == DecodeDetail(c)
  {
    DecodedIsCanonical(c);
    RoundTrip(DecodeDetail(c).value);
  }
}
