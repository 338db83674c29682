# Meal catalogue: fetch, decode and normalise layer

A Dafny model of the data layer of the SwiftUI dessert browser in
`recipesTheMealdb/recipesTheMealdbApp.swift`. The model covers three parts.

- **The summary list.** `Meal` and its synthesized decoder are modelled. `fetchData` keeps only the entries that have a non-empty name and a non-empty thumbnail, then sorts them by name with `String <` (`Meals`).
- **The hand-written `MealDetail` coder** (`MealDetails`, `MealDetailLaws`).
  - The decoder trims the three optional text fields. Each field gets its default only when it is absent or null.
  - It collapses `strIngredient1..20` and `strMeasure1..20` into two ordered sequences. A field that is absent, null or not a string is skipped, and a value that trims to "" is dropped.
  - The encoder writes everything back under the `CodingKeys` raw values, numbering each series from 1.
- **`DataViewModel`** (`ViewModel`). It is a class with the four published fields `displayData`, `error`, `isLoading` and `mealDetail`. `FetchData` and `FetchMealDetail` update them in the order the source does. The network request is an input: an `Outcome` that says whether the URL was invalid, the transport failed, or a response with a status and a body arrived.

Supporting modules:

- `Json`: parsed JSON values and the keyed-container primitives `decode`, `decodeIfPresent` and `try? decodeIfPresent`, together with the decimal rendering used to build the numbered keys.
- `Text`: `trimmingCharacters(in: .whitespaces)`.
- `StringOrder`: `String <` as a lexicographic order, proved to be a strict total order.
- `Sequences`: mapping over a sequence and permutations.
- `Wrappers`: `Option` and `Result`.

Main results:

- **Each series is characterised exactly** (`SeriesCharacterised`). It holds the trimmed values of the kept fields, in field order. A field is kept exactly when it holds a string that is not all whitespace.
- **Ingredients and measures are filtered independently, so their lengths can differ** (`SeriesIndependent`, `LengthsCanDiffer`).
- **A record the decoder produces survives a round trip** (`RoundTrip`, `JsonRoundTrip`). Encoding it and decoding it again, including through a JSON object, gives it back.
- **Both fetches end with `isLoading` false.** A success does not clear an earlier `error`, and a failure leaves the loaded data as it was.
- **A failure message tells which check failed** (`ListMessageIdentifiesCause`, `DetailMessageIdentifiesCause`).
- **`{"meals": []}` and `{"meals": null}` give different messages** (`EmptyAndNullArrays`). An empty array gives "No meal details found". A null `meals` is a decoding error and gives an `Error: ` message.

Four behaviours of the code that a reader might not expect, each stated and proved as such:

- **Sort order of equal names.** `sorted` does not promise stability. So `SortByName` states only that its result is sorted and is a permutation of its input. `SortedPermutationsAgreeOnNames` shows that every sorted permutation has the same sequence of names, so only the order of entries with equal names is open.
- **Defaults.** A text field of a detail gets its default only when it is absent or null. A present blank string decodes to "" (`DecodeSingle`).
- **One shared `error`.** Both fetches write the same `error` field, and a success never clears it. After a successful fetch, the message of an earlier failure can still be set (`FetchData`, `FetchMealDetail`).
- **Unequal lengths.** The ingredients and the measures are filtered separately, so they need not have the same length, and entry i of one need not belong with entry i of the other (`LengthsCanDiffer`).

## Model

| member | source | states |
|---|---|---|
| Json.DecodeString | recipesTheMealdb/recipesTheMealdbApp.swift:52 | `decode(String.self, forKey:)` succeeds exactly when the key holds a string, and gives that string; absent gives keyNotFound, null gives valueNotFound |
| Json.DecodeStringIfPresent | recipesTheMealdb/recipesTheMealdbApp.swift:53 | `decodeIfPresent` throws exactly when the value is neither a string nor null (typeMismatch); it gives a string exactly when one is there |
| Json.TryDecodeStringIfPresent | recipesTheMealdb/recipesTheMealdbApp.swift:60 | `try? decodeIfPresent` gives a value exactly when the key holds a string, and that string |
| Json.Decimal | recipesTheMealdb/recipesTheMealdbApp.swift:59 | the interpolation `"\(i)"` is never empty and has one digit exactly below 10 |
| Json.DecimalInjective | recipesTheMealdb/recipesTheMealdbApp.swift:59 | different numbers give different key suffixes |
| Text.Trim | recipesTheMealdb/recipesTheMealdbApp.swift:53 | the trimmed string neither begins nor ends with whitespace |
| Text.TrimIsInfix | recipesTheMealdb/recipesTheMealdbApp.swift:53 | the trimmed string is the input without a whitespace-only prefix and a whitespace-only suffix |
| Text.TrimOfTrimmed | recipesTheMealdb/recipesTheMealdbApp.swift:53 | trimming a trimmed string changes nothing |
| Text.TrimEmptyIff | recipesTheMealdb/recipesTheMealdbApp.swift:61 | a string trims to "" exactly when it is all whitespace, which is what the `isEmpty` filter then drops |
| Text.TrimExamples | recipesTheMealdb/recipesTheMealdbApp.swift:60 | `" Sugar "` trims to `"Sugar"` and `"  "` trims to `""` |
| StringOrder.LessIrreflexive | recipesTheMealdb/recipesTheMealdbApp.swift:128 | no name sorts below itself |
| StringOrder.LessTransitive | recipesTheMealdb/recipesTheMealdbApp.swift:128 | the sort's `<` is transitive |
| StringOrder.LessTotal | recipesTheMealdb/recipesTheMealdbApp.swift:128 | of two different names, one is below the other |
| StringOrder.Less | recipesTheMealdb/recipesTheMealdbApp.swift:128 | the `<` of the sort: a proper prefix is below, otherwise the first differing character decides; its order laws are the three rows above |
| Meals.DecodeMeal | recipesTheMealdb/recipesTheMealdbApp.swift:11-21 | a list entry decodes exactly when it is an object whose `idMeal` is a string and whose `strMeal` and `strMealThumb` are strings, null or absent; the name and thumbnail are those strings (nil when absent or null); a null entry gives valueNotFound, any other non-object typeMismatch |
| Meals.IsListed | recipesTheMealdb/recipesTheMealdbApp.swift:126 | the filter's test: name and thumbnail both present and non-empty, without trimming |
| Meals.NameKey | recipesTheMealdb/recipesTheMealdbApp.swift:128 | the sort key `mealName ?? ""` |
| Meals.FilterListed | recipesTheMealdb/recipesTheMealdbApp.swift:125-127 | the filter keeps every entry with a present, non-empty name and thumbnail as often as it occurs, and no other entry |
| Meals.BlankNameIsKept | recipesTheMealdb/recipesTheMealdbApp.swift:125-127 | the filter does not trim: a name of spaces keeps its entry |
| Meals.Insert | recipesTheMealdb/recipesTheMealdbApp.swift:128 | inserting into a list sorted by name keeps it sorted and adds exactly that entry |
| Meals.SortByName | recipesTheMealdb/recipesTheMealdbApp.swift:128 | the sorted list is ascending by `mealName ?? ""` and is a permutation of its input |
| Meals.SortedPermutationsAgreeOnNames | recipesTheMealdb/recipesTheMealdbApp.swift:128 | any two sorted permutations of one list have the same names in the same order, so only the arrangement of equal names is left open |
| Meals.DisplayList | recipesTheMealdb/recipesTheMealdbApp.swift:125-128 | what `fetchData` shows is sorted by name and holds exactly the listed entries of the response, each as often as it occurs |
| Meals.FilterExample | recipesTheMealdb/recipesTheMealdbApp.swift:125-127 | of "Banana Split", an unnamed entry and "Apple Pie", the unnamed one is dropped |
| Meals.DisplayListExample | recipesTheMealdb/recipesTheMealdbApp.swift:125-128 | and the other two are shown as "Apple Pie", "Banana Split" |
| MealDetails.NumberedKey | recipesTheMealdb/recipesTheMealdbApp.swift:59 | `CodingKeys(rawValue: "strIngredient\(i)")` is a case exactly for 1 <= i <= 20 |
| MealDetails.RawValue | recipesTheMealdb/recipesTheMealdbApp.swift:35-48 | the raw value of each case: `idMeal` for `id`, the case name for the three text fields, the series prefix followed by the number for a numbered case; `RawValueInjective` shows they are pairwise distinct |
| MealDetails.NumberedRawValueInjective | recipesTheMealdb/recipesTheMealdbApp.swift:35-48 | two numbered raw values are equal only for the same series and number |
| MealDetails.NumberedRawValueNotSingle | recipesTheMealdb/recipesTheMealdbApp.swift:35-48 | no numbered raw value is `idMeal`, `strMeal`, `strInstructions` or `strMealThumb` |
| MealDetails.RawValueInjective | recipesTheMealdb/recipesTheMealdbApp.swift:35-48 | different cases of `CodingKeys` have different raw values |
| MealDetails.KeyedContainer | recipesTheMealdb/recipesTheMealdbApp.swift:51 | the container holds a case exactly when the object has a member under its raw value, with that member's value |
| MealDetails.ObjectOf | recipesTheMealdb/recipesTheMealdbApp.swift:70 | the encoding container writes each value under its key's raw value and nothing else |
| MealDetails.KeyedContainerOfObject | recipesTheMealdb/recipesTheMealdbApp.swift:69-85 | reading back what a container of cases wrote gives the same container |
| MealDetails.DecodeSingle | recipesTheMealdb/recipesTheMealdbApp.swift:53-55 | a text field fails exactly when it is neither a string nor null; a string is trimmed, a blank one to "" not the default; absent or null gives the default |
| MealDetails.TryDecodeTrimmed | recipesTheMealdb/recipesTheMealdbApp.swift:60 | a numbered field gives a value exactly when it holds a string, and that string trimmed |
| MealDetails.CompactMapFields | recipesTheMealdb/recipesTheMealdbApp.swift:58-60 | the `compactMap` from field i to 20 yields at most 21 - i values |
| MealDetails.CompactMapTrimmed | recipesTheMealdb/recipesTheMealdbApp.swift:58-60 | every value of the `compactMap` is trimmed |
| MealDetails.DropEmpty | recipesTheMealdb/recipesTheMealdbApp.swift:61 | the filter never lengthens the sequence |
| MealDetails.DropEmptyMembers | recipesTheMealdb/recipesTheMealdbApp.swift:61 | the filter keeps exactly the non-empty values |
| MealDetails.DecodeSeries | recipesTheMealdb/recipesTheMealdbApp.swift:58-61 | a series has at most 20 entries, none empty and each trimmed |
| MealDetails.DecodeDetail | recipesTheMealdb/recipesTheMealdbApp.swift:50-67 | a detail decodes exactly when `idMeal` is a string and no text field is mistyped; absent `idMeal` gives keyNotFound, null gives valueNotFound; the numbered fields never make it fail |
| MealDetails.OptionalJson | recipesTheMealdb/recipesTheMealdbApp.swift:72-74 | `encode(_: String?, forKey:)` writes a string, or null for nil |
| MealDetails.EncodedSingles | recipesTheMealdb/recipesTheMealdbApp.swift:71-74 | the four single fields as the encoder writes them; `EncodedSingle` shows each reads back |
| MealDetails.EncodedSeries | recipesTheMealdb/recipesTheMealdbApp.swift:76-84 | a series written under its keys numbered from 1; `EncodedSeriesKeys` and `EncodedHolds` show which keys hold what |
| MealDetails.Encoded | recipesTheMealdb/recipesTheMealdbApp.swift:69-85 | the whole encoded container, which `Encode` builds and `RoundTrip` decodes back |
| MealDetails.Encode | recipesTheMealdb/recipesTheMealdbApp.swift:69-85 | the loop fills the container with the four single fields and each entry under its number from 1 |
| MealDetails.EncodedSeriesStep | recipesTheMealdb/recipesTheMealdbApp.swift:76-79 | one iteration writes entry `index` under number `index + 1` |
| MealDetailLaws.KeptFrom | recipesTheMealdb/recipesTheMealdbApp.swift:58-61 | the kept field numbers lie between i and 20 and name string fields |
| MealDetailLaws.KeptFromAscending | recipesTheMealdb/recipesTheMealdbApp.swift:58-61 | the kept numbers ascend |
| MealDetailLaws.KeptFromSound | recipesTheMealdb/recipesTheMealdbApp.swift:58-61 | only kept fields are among them |
| MealDetailLaws.KeptFromComplete | recipesTheMealdb/recipesTheMealdbApp.swift:58-61 | every kept field is among them |
| MealDetailLaws.CollapseFrom | recipesTheMealdb/recipesTheMealdbApp.swift:58-61 | compactMap then filter equals the trimmed values of the kept fields, in order |
| MealDetailLaws.SeriesCharacterised | recipesTheMealdb/recipesTheMealdbApp.swift:58-66 | a series is the trimmed values of its kept fields in ascending field order, and field n is kept exactly when it holds a string that is not all whitespace |
| MealDetailLaws.SeriesReadsOnlyStrings | recipesTheMealdb/recipesTheMealdbApp.swift:60 | a series depends only on which of its fields hold strings and what they hold |
| MealDetailLaws.NonStringFieldContributesNothing | recipesTheMealdb/recipesTheMealdbApp.swift:60 | a null or mistyped numbered field has the same effect as an absent one |
| MealDetailLaws.SeriesIndependent | recipesTheMealdb/recipesTheMealdbApp.swift:58-66 | changing a field of one series never changes the other series |
| MealDetailLaws.LengthsCanDiffer | recipesTheMealdb/recipesTheMealdbApp.swift:50-67 | ingredient 1 `" Sugar "` with a blank measure 1 decodes to one ingredient, no measures and the three defaults |
| MealDetailLaws.OneMissingFieldOfTwenty | recipesTheMealdb/recipesTheMealdbApp.swift:58-61 | nineteen non-blank fields and one absent field give a series of 19 |
| MealDetailLaws.EncodedHolds | recipesTheMealdb/recipesTheMealdbApp.swift:76-84 | after encoding, field n of a series holds entry n and fields past the end are absent |
| MealDetailLaws.SeriesRoundTrip | recipesTheMealdb/recipesTheMealdbApp.swift:58-84 | decoding an encoded series of at most 20 non-empty trimmed entries gives it back |
| MealDetailLaws.RoundTrip | recipesTheMealdb/recipesTheMealdbApp.swift:50-85 | decoding the encoding of a record as the decoder produces it gives back the record |
| MealDetailLaws.JsonRoundTrip | recipesTheMealdb/recipesTheMealdbApp.swift:50-85 | the same through a JSON object keyed by raw values |
| MealDetailLaws.DecodedIsCanonical | recipesTheMealdb/recipesTheMealdbApp.swift:50-67 | every decoded record has its three text fields present and trimmed and two clean series of at most 20 |
| MealDetailLaws.DecodeEncodeDecode | recipesTheMealdb/recipesTheMealdbApp.swift:50-85 | decode, encode, decode gives the first decode's result |
| ViewModel.DecodeArray | recipesTheMealdb/recipesTheMealdbApp.swift:92 | a decoded `meals` array has one record per element |
| ViewModel.IsOk | recipesTheMealdb/recipesTheMealdbApp.swift:115 | the guard: an HTTP response with status 200 |
| ViewModel.DecodeArrayElements | recipesTheMealdb/recipesTheMealdbApp.swift:92 | an array decodes exactly when every element does, and record j is element j decoded |
| ViewModel.DecodeResponse | recipesTheMealdb/recipesTheMealdbApp.swift:164 | a response decodes exactly when it is an object whose `meals` is an array of decodable elements, and then record j is element j decoded, one per element; no `meals` gives keyNotFound, a null `meals` or body valueNotFound |
| ViewModel.WithRawKey | recipesTheMealdb/recipesTheMealdbApp.swift:35-48 | a detail decoding error keeps its kind and names its key by raw value |
| ViewModel.DecodeDetailElement | recipesTheMealdb/recipesTheMealdbApp.swift:164 | a detail element decodes exactly when it is an object that the custom decoder accepts, and to its result; a null element gives valueNotFound, any other non-object typeMismatch |
| ViewModel.ErrorMessage | recipesTheMealdb/recipesTheMealdbApp.swift:179 | the message is "Error: " followed by the description |
| ViewModel.MessagesDistinct | recipesTheMealdb/recipesTheMealdbApp.swift:143-183 | the three fixed messages and every "Error: " message are pairwise different |
| ViewModel.Fetched | recipesTheMealdb/recipesTheMealdbApp.swift:143-164 | an invalid URL, a response that is not HTTP 200 and a decoding failure each give their message; otherwise the decoded array |
| ViewModel.ListFetch | recipesTheMealdb/recipesTheMealdbApp.swift:102-139 | the list loads exactly when a 200 response decodes, and then holds the listed meals sorted by name; a non-200 response gives "Invalid response or no data" |
| ViewModel.DetailFetch | recipesTheMealdb/recipesTheMealdbApp.swift:143-183 | the detail loads exactly when a 200 response decodes to a non-empty array, and is its first record; an empty array gives "No meal details found" |
| ViewModel.ListMessageIdentifiesCause | recipesTheMealdb/recipesTheMealdbApp.swift:102-139 | each failure of the list fetch has a message that names its cause |
| ViewModel.DetailMessageIdentifiesCause | recipesTheMealdb/recipesTheMealdbApp.swift:143-183 | each failure of the detail fetch, including an empty array, has a message that names its cause |
| ViewModel.EmptyAndNullArrays | recipesTheMealdb/recipesTheMealdbApp.swift:164-171 | `{"meals": []}` gives "No meal details found" (and an empty list), `{"meals": null}` an "Error: " message |
| ViewModel.OneBadElementFailsDetail | recipesTheMealdb/recipesTheMealdbApp.swift:164-165 | one undecodable element anywhere in the detail array fails the whole fetch |
| ViewModel.OneBadElementFailsList | recipesTheMealdb/recipesTheMealdbApp.swift:123 | one undecodable entry anywhere in the list fails the whole fetch |
| ViewModel.LoadedDetailIsCanonical | recipesTheMealdb/recipesTheMealdbApp.swift:164-176 | a loaded detail has trimmed text fields and two clean series of at most 20 |
| ViewModel.DataViewModel.constructor | recipesTheMealdb/recipesTheMealdbApp.swift:96-99 | the fields start as `[]`, nil, false and nil |
| ViewModel.DataViewModel.FetchData | recipesTheMealdb/recipesTheMealdbApp.swift:102-140 | a success stores the list and keeps `error`; a failure sets `error` and keeps the list; `isLoading` ends false; `mealDetail` is untouched |
| ViewModel.DataViewModel.FetchMealDetail | recipesTheMealdb/recipesTheMealdbApp.swift:143-183 | a success stores the first record and keeps `error`; a failure sets `error` and keeps `mealDetail`; `isLoading` ends false; `displayData` is untouched |

## Left out

- The network is not modelled. That covers `URL(string:)`, `URLSession.shared.data(from:)` and the `HTTPURLResponse` cast. Their result is the `Outcome` parameter of the two fetches.
- The URL of the list is a constant, so its `guard` cannot fail in practice. The model still covers that branch.
- `async`/`await` and `MainActor.run` are not modelled. Each fetch is one atomic step. So a slow earlier request that overwrites a later one is not captured.
- `isLoading` is set to true while a request is running. The model only shows that it ends false, because the request is not a step of the model.
- The parsing of the JSON bytes is not modelled. A body is either `Malformed` (Foundation's dataCorrupted) or an already-parsed value.
- JSON numbers are integers. Floating-point numbers play no part in either response.
- ViewModel.Describe: the texts given to `localizedDescription` follow Foundation's wording, but no contract depends on them. The contracts rely only on the "Error: " prefix.
- Decoding errors carry only their key, not Foundation's full coding path. An error inside an array element names the inner key.
- Meals.SortByName: does not state which of two entries with the same name comes first, because `sorted` gives no such promise. It is proved to be an ascending permutation.
- StringOrder.Less: `String <` is modelled as lexicographic order on characters. Unicode canonical equivalence is not modelled.
- Text.IsWhitespace: `CharacterSet.whitespaces` is modelled as tab plus the space separators (category Zs) of Unicode.
- `ContentView.swift`, `MealDetailedView.swift` and the `@main` app struct are SwiftUI layout, navigation and image loading. They are not part of this model.
