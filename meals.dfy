/**
 * The summary records of the dessert list (`Meal`), their synthesized
 * decoder, and the filter and sort that `fetchData` applies before the list
 * is shown.
 */
module Meals {
  import opened Wrappers
  import opened Json
  import opened StringOrder
  import opened Sequences

  /** One entry of the list endpoint: `idMeal`, `strMeal`, `strMealThumb`. */
  datatype Meal = Meal(id: string, mealName: Option<string>, mealThumb: Option<string>)

  /**
   * The synthesized `Meal.init(from:)`: `idMeal` is required, the two others
   * are optional strings. A null where the object should be is reported as
   * a missing value, any other non-object as a type mismatch.
   */
  function DecodeMeal(v: Json, at: string): (r: Result<Meal, DecodingError<string>>)
    ensures r.Success? <==>
      v.JObject? && IsString(v.fields, "idMeal")
      && !IsMistyped(v.fields, "strMeal") && !IsMistyped(v.fields, "strMealThumb")
    ensures r.Success? ==> r.value.id == v.fields["idMeal"].s
    ensures r.Success? ==> r.value.mealName == TryDecodeStringIfPresent(v.fields, "strMeal")
    ensures r.Success? ==> r.value.mealThumb == TryDecodeStringIfPresent(v.fields, "strMealThumb")
    ensures v.JNull? ==> r == Failure(ValueNotFound(at))
    ensures !v.JObject? && !v.JNull? ==> r == Failure(TypeMismatch(at))
  {
    match v
    case JObject(obj) =>
      (match DecodeString(obj, "idMeal")
       case Failure(e) => Failure(e)
       case Success(id) =>
         match DecodeStringIfPresent(obj, "strMeal")
         case Failure(e) => Failure(e)
         case Success(name) =>
           match DecodeStringIfPresent(obj, "strMealThumb")
           case Failure(e) => Failure(e)
           case Success(thumb) => Success(Meal(id, name, thumb)))
    case JNull => Failure(ValueNotFound(at))
    case _ => Failure(TypeMismatch(at))
  }

  /** The filter's test: a name and a thumbnail, both present and non-empty (no trimming). */
  predicate IsListed(m: Meal) {
    m.mealName.Some? && m.mealName.value != "" && m.mealThumb.Some? && m.mealThumb.value != ""
  }

  /** The sort key `meal.mealName ?? ""`. */
  function NameKey(m: Meal): string {
    m.mealName.GetOr("")
  }

  /** Ascending by name: no later entry has a name below an earlier one. */
  predicate SortedByName(s: seq<Meal>) {
    forall i, j :: 0 <= i < j < |s| ==> !Less(NameKey(s[j]), NameKey(s[i]))
  }

  /** `meals.filter { ... }`: keeps exactly the listed meals, each as often as it occurs. */
  function FilterListed(meals: seq<Meal>): (r: seq<Meal>)
    ensures forall m :: multiset(r)[m] == if IsListed(m) then multiset(meals)[m] else 0
    ensures |r| <= |meals|
  {
    if meals == [] then []
    else
      var rest := FilterListed(meals[1..]);
      assert meals == [meals[0]] + meals[1..];
      if IsListed(meals[0]) then [meals[0]] + rest else rest
  }

  /** Inserts `m` into a list sorted by name, keeping it sorted. */
  function Insert(m: Meal, s: seq<Meal>): (r: seq<Meal>)
    requires SortedByName(s)
    ensures SortedByName(r)
    ensures multiset(r) == multiset(s) + multiset{m}
  {
    if s == [] then [m]
    else if !Less(NameKey(s[0]), NameKey(m)) then
      InsertInFront(m, s);
      [m] + s
    else
      var rest := Insert(m, s[1..]);
      InsertBehind(s, m, rest);
      assert s == [s[0]] + s[1..];
      [s[0]] + rest
  }

  /** A meal whose name is not above any name of a sorted list can go first. */
  lemma ConsSorted(x: Meal, t: seq<Meal>)
    requires SortedByName(t)
    requires forall e :: e in t ==> !Less(NameKey(e), NameKey(x))
    ensures SortedByName([x] + t)
  {
    forall i, j | 0 <= i < j < |[x] + t| ensures !Less(NameKey(([x] + t)[j]), NameKey(([x] + t)[i])) {
      if i == 0 {
        assert ([x] + t)[j] in t;
      } else {
        assert ([x] + t)[j] == t[j - 1] && ([x] + t)[i] == t[i - 1];
      }
    }
  }

  lemma InsertInFront(m: Meal, s: seq<Meal>)
    requires SortedByName(s) && s != []
    requires !Less(NameKey(s[0]), NameKey(m))
    ensures SortedByName([m] + s)
  {
    forall e | e in s ensures !Less(NameKey(e), NameKey(m)) {
      var j :| 0 <= j < |s| && s[j] == e;
      if j > 0 {
        NotLessTransitive(NameKey(m), NameKey(s[0]), NameKey(s[j]));
      }
    }
    ConsSorted(m, s);
  }

  lemma InsertBehind(s: seq<Meal>, m: Meal, rest: seq<Meal>)
    requires SortedByName(s) && s != []
    requires Less(NameKey(s[0]), NameKey(m))
    requires SortedByName(rest) && multiset(rest) == multiset(s[1..]) + multiset{m}
    ensures SortedByName([s[0]] + rest)
  {
    forall e | e in rest ensures !Less(NameKey(e), NameKey(s[0])) {
      assert e in multiset(rest);
      if e == m {
        if Less(NameKey(m), NameKey(s[0])) {
          LessTransitive(NameKey(m), NameKey(s[0]), NameKey(m));
          LessIrreflexive(NameKey(m));
        }
      } else {
        assert e in multiset(s[1..]);
        var k :| 0 <= k < |s[1..]| && s[1..][k] == e;
        assert s[k + 1] == e;
      }
    }
    ConsSorted(s[0], rest);
  }

  /**
   * `sorted { $0.mealName ?? "" < $1.mealName ?? "" }`: a permutation of the
   * input, ascending by name. The arrangement of meals with equal names is an
   * implementation choice that the contract leaves open.
   */
  function SortByName(meals: seq<Meal>): (r: seq<Meal>)
    ensures SortedByName(r)
    ensures multiset(r) == multiset(meals)
  {
    if meals == [] then []
    else
      assert meals == [meals[0]] + meals[1..];
      Insert(meals[0], SortByName(meals[1..]))
  }

  /** What `fetchData` stores in `displayData` from a decoded list: the listed meals, sorted by name. */
  function DisplayList(meals: seq<Meal>): (r: seq<Meal>)
    ensures SortedByName(r)
    ensures forall m :: multiset(r)[m] == if IsListed(m) then multiset(meals)[m] else 0
    ensures forall m :: m in r ==> IsListed(m)
  {
    SortByName(FilterListed(meals))
  }

  /** The names of a list, in order. */
  function Names(s: seq<Meal>): seq<string> {
    MapSeq(NameKey, s)
  }

  /** A sequence of strings in ascending order. */
  predicate Ascending(s: seq<string>) {
    forall i, j :: 0 <= i < j < |s| ==> !Less(s[j], s[i])
  }

  /** Two ascending sequences holding the same strings are the same sequence. */
  lemma {:induction false} AscendingPermutationsEqual(x: seq<string>, y: seq<string>)
    requires Ascending(x) && Ascending(y)
    requires multiset(x) == multiset(y)
    ensures x == y
  {
    if x != [] {
      assert x[0] in multiset(y) && y[0] in multiset(x);
      LessIrreflexive(x[0]);
      LessIrreflexive(y[0]);
      NotLessAntisymmetric(x[0], y[0]);
      CancelHeads(x, y);
      AscendingPermutationsEqual(x[1..], y[1..]);
      assert x == [x[0]] + x[1..] && y == [y[0]] + y[1..];
    }
  }

  /** The names of a list sorted by name ascend. */
  lemma SortedNamesAscending(s: seq<Meal>)
    requires SortedByName(s)
    ensures Ascending(Names(s))
  {
    forall i, j | 0 <= i < j < |s| ensures !Less(Names(s)[j], Names(s)[i]) {
      MapSeqAt(NameKey, s, i);
      MapSeqAt(NameKey, s, j);
    }
  }

  /**
   * Whatever sorting algorithm is used, two sorted permutations of one list
   * carry the same names in the same order: only meals with equal names can
   * be arranged differently.
   */
  lemma SortedPermutationsAgreeOnNames(a: seq<Meal>, b: seq<Meal>)
    requires SortedByName(a) && SortedByName(b)
    requires multiset(a) == multiset(b)
    ensures Names(a) == Names(b)
  {
    MapPermutation(NameKey, a, b);
    SortedNamesAscending(a);
    SortedNamesAscending(b);
    AscendingPermutationsEqual(Names(a), Names(b));
  }

  /** The filter does not trim: a name made of spaces is a name, and the entry stays. */
  lemma BlankNameIsKept(id: string, thumb: string)
    requires thumb != ""
    ensures FilterListed([Meal(id, Some(" "), Some(thumb))]) == [Meal(id, Some(" "), Some(thumb))]
  {
    assert [Meal(id, Some(" "), Some(thumb))][1..] == [];
  }

  /** Three entries of a list: two desserts and one whose name is empty. */
  const BananaSplit := Meal("1", Some("Banana Split"), Some("b.jpg"))
  const Unnamed := Meal("2", Some(""), Some("x.jpg"))
  const ApplePie := Meal("3", Some("Apple Pie"), Some("a.jpg"))

  /** The filter drops the entry whose name is empty and keeps the order of the others. */
  lemma FilterExample()
    ensures FilterListed([BananaSplit, Unnamed, ApplePie]) == [BananaSplit, ApplePie]
  {
    assert [BananaSplit, Unnamed, ApplePie][1..] == [Unnamed, ApplePie];
    assert [Unnamed, ApplePie][1..] == [ApplePie];
    assert FilterListed([ApplePie]) == [ApplePie];
    assert FilterListed([Unnamed, ApplePie]) == [ApplePie];
  }

  /** The two remaining entries are shown in alphabetical order. */
  lemma DisplayListExample()
    ensures Names(DisplayList([BananaSplit, Unnamed, ApplePie])) == ["Apple Pie", "Banana Split"]
  {
    var sorted := [ApplePie, BananaSplit];
    assert Less("Apple Pie", "Banana Split");
    assert SortedByName(sorted);
    FilterExample();
    var shown := SortByName([BananaSplit, ApplePie]);
    assert multiset(shown) == multiset(sorted);
    SortedPermutationsAgreeOnNames(shown, sorted);
    assert sorted[1..] == [BananaSplit];
    assert Names([BananaSplit]) == ["Banana Split"];
  }
}
