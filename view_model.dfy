/**
 * `DataViewModel`: the two fetches that load the dessert list and one
 * meal's details, and the four published fields they update. The request
 * itself is not modelled: what it produced is passed in as an `Outcome`.
 */
module ViewModel {
  import opened Wrappers
  import opened Json
  import opened Meals
  import opened MealDetails
  import opened MealDetailLaws

  // ---------------------------------------------------------------------
  // What a request can produce

  /** The response of a completed request: an HTTP response with its status, or another kind of response. */
  datatype Response = HttpResponse(statusCode: int) | OtherResponse

  /** The body of a response: bytes that are not JSON, or a parsed JSON value. */
  datatype Body = Malformed | Parsed(root: Json)

  /** What building the URL and performing the request produced. */
  datatype Outcome =
    | InvalidUrl
    | TransportError(description: string)
    | Received(response: Response, body: Body)

  /** The guard `response as? HTTPURLResponse` with `statusCode == 200`. */
  predicate IsOk(response: Response) {
    response.HttpResponse? && response.statusCode == 200
  }

  // ---------------------------------------------------------------------
  // Decoding a response body: `{ "meals": [ ... ] }`

  /** The coding-path key of the `i`th element of an array. */
  function IndexKey(i: nat): string {
    "Index " + Decimal(i)
  }

  /** The coding-path key of the top-level value. */
  const RootKey: string := ""

  /** The key of the array in both responses. */
  const MealsKey: string := "meals"

  /** Decodes each element of an array with `decode`, stopping at the first element that fails. */
  function DecodeArray<T>(decode: (Json, string) -> Result<T, DecodingError<string>>, items: seq<Json>, from: nat)
    : (r: Result<seq<T>, DecodingError<string>>)
    ensures r.Success? ==> |r.value| == |items|
    decreases |items|
  {
    if items == [] then Success([])
    else match decode(items[0], IndexKey(from))
      case Failure(e) => Failure(e)
      case Success(x) =>
        match DecodeArray(decode, items[1..], from + 1)
        case Failure(e) => Failure(e)
        case Success(xs) => Success([x] + xs)
  }

  /** Every element of an array decodes. */
  predicate AllDecode<T>(decode: (Json, string) -> Result<T, DecodingError<string>>, items: seq<Json>, from: nat) {
    forall j :: 0 <= j < |items| ==> decode(items[j], IndexKey(from + j)).Success?
  }

  /** The array decodes exactly when each element does, and then element `j` of the result is element `j` decoded. */
  lemma {:induction false} DecodeArrayElements<T>(decode: (Json, string) -> Result<T, DecodingError<string>>, items: seq<Json>, from: nat)
    ensures DecodeArray(decode, items, from).Success? <==> AllDecode(decode, items, from)
    ensures DecodeArray(decode, items, from).Success? ==>
      forall j :: 0 <= j < |items| ==>
        decode(items[j], IndexKey(from + j)) == Success(DecodeArray(decode, items, from).value[j])
    decreases |items|
  {
    if items != [] {
      DecodeArrayElements(decode, items[1..], from + 1);
      if AllDecode(decode, items[1..], from + 1) && decode(items[0], IndexKey(from)).Success? {
        assert AllDecode(decode, items, from) by {
          forall j | 0 <= j < |items| ensures decode(items[j], IndexKey(from + j)).Success? {
            if j > 0 {
              assert items[j] == items[1..][j - 1];
            }
          }
        }
        var xs := DecodeArray(decode, items[1..], from + 1).value;
        forall j | 0 <= j < |items|
          ensures decode(items[j], IndexKey(from + j)) == Success(DecodeArray(decode, items, from).value[j])
        {
          if j > 0 {
            assert items[j] == items[1..][j - 1];
          }
        }
      } else if decode(items[0], IndexKey(from)).Success? {
        var j :| 0 <= j < |items[1..]| && !decode(items[1..][j], IndexKey(from + 1 + j)).Success?;
        assert items[j + 1] == items[1..][j];
      }
    }
  }

  /** `JSONDecoder().decode(MealsResponse.self, ...)` and its detail twin: the object with the `meals` array. */
  function DecodeResponse<T>(decode: (Json, string) -> Result<T, DecodingError<string>>, root: Json)
    : (r: Result<seq<T>, DecodingError<string>>)
    ensures root.JNull? ==> r == Failure(ValueNotFound(RootKey))
    ensures !root.JObject? && !root.JNull? ==> r == Failure(TypeMismatch(RootKey))
    ensures root.JObject? && MealsKey !in root.fields ==> r == Failure(KeyNotFound(MealsKey))
    ensures root.JObject? && MealsKey in root.fields && root.fields[MealsKey].JNull? ==> r == Failure(ValueNotFound(MealsKey))
    ensures r.Success? <==>
      root.JObject? && MealsKey in root.fields && root.fields[MealsKey].JArray?
      && AllDecode(decode, root.fields[MealsKey].items, 0)
    ensures r.Success? ==> |r.value| == |root.fields[MealsKey].items|
    ensures r.Success? ==> forall j :: 0 <= j < |r.value| ==>
      decode(root.fields[MealsKey].items[j], IndexKey(j)) == Success(r.value[j])
  {
    match root
    case JObject(obj) =>
      if MealsKey !in obj then Failure(KeyNotFound(MealsKey))
      else (match obj[MealsKey]
        case JArray(items) =>
          DecodeArrayElements(decode, items, 0);
          DecodeArray(decode, items, 0)
        case JNull => Failure(ValueNotFound(MealsKey))
        case _ => Failure(TypeMismatch(MealsKey)))
    case JNull => Failure(ValueNotFound(RootKey))
    case _ => Failure(TypeMismatch(RootKey))
  }

  /** A decoding error of `MealDetail` with its key written as the key's raw value. */
  function WithRawKey(e: DecodingError<CodingKey>): (r: DecodingError<string>)
    ensures e.KeyNotFound? <==> r.KeyNotFound?
    ensures e.ValueNotFound? <==> r.ValueNotFound?
    ensures e.TypeMismatch? <==> r.TypeMismatch?
    ensures !e.DataCorrupted? ==> r.key == RawValue(e.key)
  {
    match e
    case KeyNotFound(k) => KeyNotFound(RawValue(k))
    case ValueNotFound(k) => ValueNotFound(RawValue(k))
    case TypeMismatch(k) => TypeMismatch(RawValue(k))
    case DataCorrupted => DataCorrupted
  }

  /** One element of the detail response, through the custom `MealDetail.init(from:)`. */
  function DecodeDetailElement(v: Json, at: string): (r: Result<MealDetail, DecodingError<string>>)
    ensures r.Success? <==> v.JObject? && DecodeDetail(KeyedContainer(v.fields)).Success?
    ensures r.Success? ==> r.value == DecodeDetail(KeyedContainer(v.fields)).value
    ensures v.JNull? ==> r == Failure(ValueNotFound(at))
    ensures !v.JObject? && !v.JNull? ==> r == Failure(TypeMismatch(at))
  {
    match v
    case JObject(obj) =>
      (match DecodeDetail(KeyedContainer(obj))
       case Success(d) => Success(d)
       case Failure(e) => Failure(WithRawKey(e)))
    case JNull => Failure(ValueNotFound(at))
    case _ => Failure(TypeMismatch(at))
  }

  // ---------------------------------------------------------------------
  // Messages

  const InvalidUrlMessage: string := "Invalid URL"
  const BadResponseMessage: string := "Invalid response or no data"
  const NoDetailsMessage: string := "No meal details found"
  const ErrorPrefix: string := "Error: "

  /** A message that begins with `Error: `. */
  predicate IsErrorMessage(m: string) {
    |m| >= |ErrorPrefix| && m[..|ErrorPrefix|] == ErrorPrefix
  }

  /** `"Error: \(error.localizedDescription)"`. */
  function ErrorMessage(description: string): (r: string)
    ensures IsErrorMessage(r)
    ensures r[|ErrorPrefix|..] == description
  {
    ErrorPrefix + description
  }

  /** Foundation's `localizedDescription` of a decoding error. */
  function Describe(e: DecodingError<string>): string {
    match e
    case KeyNotFound(_) => "The data couldn’t be read because it is missing."
    case ValueNotFound(_) => "The data couldn’t be read because it is missing."
    case TypeMismatch(_) => "The data couldn’t be read because it isn’t in the correct format."
    case DataCorrupted => "The data couldn’t be read because it isn’t in the correct format."
  }

  /** The three fixed messages and the `Error: ` messages are pairwise distinct. */
  lemma MessagesDistinct(m: string)
    requires IsErrorMessage(m)
    ensures InvalidUrlMessage != BadResponseMessage
    ensures InvalidUrlMessage != NoDetailsMessage
    ensures BadResponseMessage != NoDetailsMessage
    ensures m != InvalidUrlMessage && m != BadResponseMessage && m != NoDetailsMessage
  {
    assert m[0] == m[..|ErrorPrefix|][0] == 'E';
    assert InvalidUrlMessage[0] == 'I' && BadResponseMessage[0] == 'I' && NoDetailsMessage[0] == 'N';
    assert InvalidUrlMessage[8] != BadResponseMessage[8];
  }

  // ---------------------------------------------------------------------
  // What a fetch delivers

  /** What one fetch hands to the view: the value to store, or the message to show. */
  datatype FetchResult<T> = Loaded(value: T) | Failed(message: string)

  /**
   * The decoded `meals` array of a request that reached a 200 response, or
   * the message for the first check that failed, in the order of the source.
   */
  function Fetched<T>(decode: (Json, string) -> Result<T, DecodingError<string>>, outcome: Outcome)
    : (r: FetchResult<seq<T>>)
    ensures outcome.InvalidUrl? ==> r == Failed(InvalidUrlMessage)
    ensures outcome.Received? && !IsOk(outcome.response) ==> r == Failed(BadResponseMessage)
    ensures r.Loaded? <==> Delivers(decode, outcome)
    ensures r.Loaded? ==> r.value == DecodeResponse(decode, outcome.body.root).value
    ensures r.Failed? && !outcome.InvalidUrl? && !(outcome.Received? && !IsOk(outcome.response)) ==>
      IsErrorMessage(r.message)
  {
    match outcome
    case InvalidUrl => Failed(InvalidUrlMessage)
    case TransportError(description) => Failed(ErrorMessage(description))
    case Received(response, body) =>
      if !IsOk(response) then Failed(BadResponseMessage)
      else match body
        case Malformed => Failed(ErrorMessage(Describe(DataCorrupted)))
        case Parsed(root) =>
          match DecodeResponse(decode, root)
          case Failure(e) => Failed(ErrorMessage(Describe(e)))
          case Success(items) => Loaded(items)
  }

  /** The request reached a 200 response whose body holds a `meals` array all of whose elements decode. */
  predicate Delivers<T>(decode: (Json, string) -> Result<T, DecodingError<string>>, outcome: Outcome) {
    && outcome.Received?
    && IsOk(outcome.response)
    && outcome.body.Parsed?
    && DecodeResponse(decode, outcome.body.root).Success?
  }

  /** The array elements as `decode` reads them. */
  function Delivered<T>(decode: (Json, string) -> Result<T, DecodingError<string>>, outcome: Outcome): seq<T>
    requires Delivers(decode, outcome)
  {
    DecodeResponse(decode, outcome.body.root).value
  }

  /** `fetchData`: the listed meals of the response sorted by name, or the message to show. */
  function ListFetch(outcome: Outcome): (r: FetchResult<seq<Meal>>)
    ensures outcome.InvalidUrl? ==> r == Failed(InvalidUrlMessage)
    ensures outcome.Received? && !IsOk(outcome.response) ==> r == Failed(BadResponseMessage)
    ensures r.Loaded? <==> Delivers(DecodeMeal, outcome)
    ensures r.Loaded? ==>
      && SortedByName(r.value)
      && (forall m :: multiset(r.value)[m] == if IsListed(m) then multiset(Delivered(DecodeMeal, outcome))[m] else 0)
    ensures r.Failed? && !outcome.InvalidUrl? && !(outcome.Received? && !IsOk(outcome.response)) ==>
      IsErrorMessage(r.message)
  {
    match Fetched(DecodeMeal, outcome)
    case Failed(message) => Failed(message)
    case Loaded(meals) => Loaded(DisplayList(meals))
  }

  /** `fetchMealDetail`: the first decoded record, or the message to show. */
  function DetailFetch(outcome: Outcome): (r: FetchResult<MealDetail>)
    ensures outcome.InvalidUrl? ==> r == Failed(InvalidUrlMessage)
    ensures outcome.Received? && !IsOk(outcome.response) ==> r == Failed(BadResponseMessage)
    ensures r.Loaded? <==> Delivers(DecodeDetailElement, outcome) && Delivered(DecodeDetailElement, outcome) != []
    ensures r.Loaded? ==> r.value == Delivered(DecodeDetailElement, outcome)[0]
    ensures Delivers(DecodeDetailElement, outcome) && Delivered(DecodeDetailElement, outcome) == [] ==>
      r == Failed(NoDetailsMessage)
    ensures r.Failed? && !outcome.InvalidUrl? && !(outcome.Received? && !IsOk(outcome.response))
            && !Delivers(DecodeDetailElement, outcome) ==>
      IsErrorMessage(r.message)
  {
    match Fetched(DecodeDetailElement, outcome)
    case Failed(message) => Failed(message)
    case Loaded(details) =>
      if details == [] then Failed(NoDetailsMessage) else Loaded(details[0])
  }

  /** The message of a failed list fetch tells which check failed. */
  lemma ListMessageIdentifiesCause(outcome: Outcome)
    requires ListFetch(outcome).Failed?
    ensures ListFetch(outcome).message == InvalidUrlMessage <==> outcome.InvalidUrl?
    ensures ListFetch(outcome).message == BadResponseMessage <==> outcome.Received? && !IsOk(outcome.response)
    ensures IsErrorMessage(ListFetch(outcome).message) <==> !outcome.InvalidUrl? && !(outcome.Received? && !IsOk(outcome.response))
  {
    var m := ListFetch(outcome).message;
    if IsErrorMessage(m) {
      MessagesDistinct(m);
    } else {
      assert !IsErrorMessage(InvalidUrlMessage) && !IsErrorMessage(BadResponseMessage) by {
        assert InvalidUrlMessage[0] != 'E' && BadResponseMessage[0] != 'E';
      }
    }
  }

  /** The message of a failed detail fetch tells which check failed; an empty array has a message of its own. */
  lemma DetailMessageIdentifiesCause(outcome: Outcome)
    requires DetailFetch(outcome).Failed?
    ensures DetailFetch(outcome).message == InvalidUrlMessage <==> outcome.InvalidUrl?
    ensures DetailFetch(outcome).message == BadResponseMessage <==> outcome.Received? && !IsOk(outcome.response)
    ensures DetailFetch(outcome).message == NoDetailsMessage <==> Delivers(DecodeDetailElement, outcome)
    ensures IsErrorMessage(DetailFetch(outcome).message) <==>
      !outcome.InvalidUrl? && !(outcome.Received? && !IsOk(outcome.response)) && !Delivers(DecodeDetailElement, outcome)
  {
    var m := DetailFetch(outcome).message;
    if IsErrorMessage(m) {
      MessagesDistinct(m);
    } else {
      assert !IsErrorMessage(InvalidUrlMessage) && !IsErrorMessage(BadResponseMessage) && !IsErrorMessage(NoDetailsMessage) by {
        assert InvalidUrlMessage[0] != 'E' && BadResponseMessage[0] != 'E' && NoDetailsMessage[0] != 'E';
      }
    }
  }

  /** A 200 response whose body is `{"meals": []}`. */
  function EmptyArrayOutcome(): Outcome {
    Received(HttpResponse(200), Parsed(JObject(map[MealsKey := JArray([])])))
  }

  /** A 200 response whose body is `{"meals": null}`. */
  function NullArrayOutcome(): Outcome {
    Received(HttpResponse(200), Parsed(JObject(map[MealsKey := JNull])))
  }

  /**
   * An empty `meals` array yields "No meal details found", but a `meals`
   * that is null fails inside the decoder and yields an `Error: ` message.
   */
  lemma EmptyAndNullArrays()
    ensures DetailFetch(EmptyArrayOutcome()) == Failed(NoDetailsMessage)
    ensures DetailFetch(NullArrayOutcome()) == Failed(ErrorMessage(Describe(ValueNotFound(MealsKey))))
    ensures ListFetch(EmptyArrayOutcome()) == Loaded([])
  {
    assert DecodeResponse(DecodeDetailElement, JObject(map[MealsKey := JArray([])])) == Success([]);
    assert DecodeResponse(DecodeMeal, JObject(map[MealsKey := JArray([])])) == Success([]);
    assert DecodeResponse(DecodeDetailElement, JObject(map[MealsKey := JNull])) == Failure(ValueNotFound(MealsKey));
  }

  /**
   * Every element of the detail array is decoded: one element that does not
   * decode makes the whole fetch fail, even when the first one, the only one
   * kept, is fine.
   */
  lemma OneBadElementFailsDetail(outcome: Outcome, j: nat)
    requires outcome.Received? && IsOk(outcome.response) && outcome.body.Parsed?
    requires outcome.body.root.JObject? && MealsKey in outcome.body.root.fields
    requires outcome.body.root.fields[MealsKey].JArray?
    requires j < |outcome.body.root.fields[MealsKey].items|
    requires DecodeDetailElement(outcome.body.root.fields[MealsKey].items[j], IndexKey(j)).Failure?
    ensures DetailFetch(outcome).Failed? && IsErrorMessage(DetailFetch(outcome).message)
  {
    assert !AllDecode(DecodeDetailElement, outcome.body.root.fields[MealsKey].items, 0);
  }

  /** The same for the list: one entry that does not decode fails the whole fetch. */
  lemma OneBadElementFailsList(outcome: Outcome, j: nat)
    requires outcome.Received? && IsOk(outcome.response) && outcome.body.Parsed?
    requires outcome.body.root.JObject? && MealsKey in outcome.body.root.fields
    requires outcome.body.root.fields[MealsKey].JArray?
    requires j < |outcome.body.root.fields[MealsKey].items|
    requires DecodeMeal(outcome.body.root.fields[MealsKey].items[j], IndexKey(j)).Failure?
    ensures ListFetch(outcome).Failed? && IsErrorMessage(ListFetch(outcome).message)
  {
    assert !AllDecode(DecodeMeal, outcome.body.root.fields[MealsKey].items, 0);
  }

  /**
   * A loaded detail is the first element as the custom decoder reads it, so
   * its three single fields are present and trimmed and its two series hold
   * at most 20 trimmed, non-empty entries each.
   */
  lemma LoadedDetailIsCanonical(outcome: Outcome)
    requires DetailFetch(outcome).Loaded?
    ensures Canonical(DetailFetch(outcome).value)
  {
    var items := outcome.body.root.fields[MealsKey].items;
    DecodeArrayElements(DecodeDetailElement, items, 0);
    assert DecodeDetailElement(items[0], IndexKey(0)).Success?;
    DecodedIsCanonical(KeyedContainer(items[0].fields));
  }

  // ---------------------------------------------------------------------
  // The view model

  class DataViewModel {
    var displayData: seq<Meal>
    var error: Option<string>
    var isLoading: bool
    var mealDetail: Option<MealDetail>

    /** The initial values of the four published properties. */
    constructor()
      ensures displayData == [] && error == None && !isLoading && mealDetail == None
    {
      displayData := [];
      error := None;
      isLoading := false;
      mealDetail := None;
    }

    /**
     * `fetchData()`. A success stores the list and leaves `error` as it was;
     * a failure stores the message and leaves the list as it was. Either way
     * the fetch ends with `isLoading` false, and the detail is untouched.
     */
    method FetchData(outcome: Outcome)
      modifies this
      ensures ListFetch(outcome).Loaded? ==> displayData == ListFetch(outcome).value && error == old(error)
      ensures ListFetch(outcome).Failed? ==> error == Some(ListFetch(outcome).message) && displayData == old(displayData)
      ensures !isLoading
      ensures mealDetail == old(mealDetail)
    {
      if outcome.InvalidUrl? {
        error := Some(InvalidUrlMessage);
        isLoading := false;
        return;
      }
      isLoading := true;
      match outcome
      case TransportError(description) =>
        error := Some(ErrorMessage(description));
        isLoading := false;
      case Received(response, body) =>
        if !IsOk(response) {
          error := Some(BadResponseMessage);
          isLoading := false;
          return;
        }
        match body
        case Malformed =>
          error := Some(ErrorMessage(Describe(DataCorrupted)));
          isLoading := false;
        case Parsed(root) =>
          match DecodeResponse(DecodeMeal, root)
          case Failure(e) =>
            error := Some(ErrorMessage(Describe(e)));
            isLoading := false;
          case Success(meals) =>
            var filteredData := FilterListed(meals);
            var sortedData := SortByName(filteredData);
            displayData := sortedData;
            isLoading := false;
    }

    /**
     * `fetchMealDetail(id:)`. A success stores the first record and leaves
     * `error` as it was; a failure, including an empty `meals` array, stores
     * the message and leaves the detail as it was. Either way the fetch ends
     * with `isLoading` false, and the list is untouched.
     */
    method FetchMealDetail(outcome: Outcome)
      modifies this
      ensures DetailFetch(outcome).Loaded? ==> mealDetail == Some(DetailFetch(outcome).value) && error == old(error)
      ensures DetailFetch(outcome).Failed? ==> error == Some(DetailFetch(outcome).message) && mealDetail == old(mealDetail)
      ensures !isLoading
      ensures displayData == old(displayData)
    {
      if outcome.InvalidUrl? {
        error := Some(InvalidUrlMessage);
        isLoading := false;
        return;
      }
      isLoading := true;
      match outcome
      case TransportError(description) =>
        error := Some(ErrorMessage(description));
        isLoading := false;
      case Received(response, body) =>
        if !IsOk(response) {
          error := Some(BadResponseMessage);
          isLoading := false;
          return;
        }
        match body
        case Malformed =>
          error := Some(ErrorMessage(Describe(DataCorrupted)));
          isLoading := false;
        case Parsed(root) =>
          match DecodeResponse(DecodeDetailElement, root)
          case Failure(e) =>
            error := Some(ErrorMessage(Describe(e)));
            isLoading := false;
          case Success(meals) =>
            if meals == [] {
              error := Some(NoDetailsMessage);
              isLoading := false;
              return;
            }
            mealDetail := Some(meals[0]);
            isLoading := false;
    }
  }
}
