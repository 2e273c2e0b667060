# Web-development exercises, modelled in Dafny

This project models a set of small JavaScript teaching exercises. They are Indian-themed kata:
- three factory-made registries with private state:
  - the dabbawala delivery tracker;
  - the festival countdown planner;
  - the panchayat election;
- string helpers for chai orders, postcards and WhatsApp export lines;
- recursive helpers for mehndi patterns;
- callback and higher-order helpers for the wedding RSVP list, the masala blender and the dhaba rating system;
- non-mutating palette operations for Holi colours;
- integer pricing rules for the dosa counter, the tiffin service and the Bollywood ticket pricer.

The exercises' source bodies are stubs, so each model follows two things:
- the doc comment on the stub;
- the Jest spec file for the exercise, where no source is present.

**How the models are built:**
- **Registries.** Each registry is a Dafny `class`:
  - `Dabbawala`, `FestivalManager` and `Election`, each with `seq`/`map` fields, a `Valid()` invariant and methods with `modifies this`;
  - each method's `ensures` states the whole new state as a function of the old one (appended, replaced at an index, or cut out at an index) and the returned sentinel.
- **Pure exercises.** Every pure exercise is a module of functions with named results. Lemmas relate each function to a partner, which is one of:
  - an inverse;
  - a reference definition;
  - an invariant;
  - the same operation split over a concatenation.
- **Test cases.** Each test case becomes an example lemma. For the registries, it becomes a method that performs the test's sequence of calls on a fresh object.

**How JavaScript values are represented:**
- A JavaScript value that may be missing, `null`, `undefined`, or not of the expected type becomes `Option.None` at the boundary.
- A JavaScript object becomes `map<string, Value>` (module `JsValues`).
- `Array.prototype.sort` becomes a stable insertion sort by a caller-supplied "comes no later than" relation (module `Sorting`).
- `pipe`, `compose`, `transformGuestList` and `applyOperations` share one left fold of functions (module `Pipeline`).

## Model

| member | source | states |
|---|---|---|
| DosaCounter.CalculateDosaOrder | Javascript/js-functions/tests/01-dosa-counter.spec.js:5-136 | an order exists iff the type is on the menu and the quantity (default 1) is positive; price per dosa is the menu price plus 10 when spicy (default not spicy); total = price per dosa × quantity and is positive |
| DosaCounter.DosaOrderArithmetic | Javascript/js-functions/tests/01-dosa-counter.spec.js:64-100 | for every menu dosa, spice adds exactly 10 × quantity and one more dosa adds exactly one menu price |
| DosaCounter.DosaOrderDefaults | Javascript/js-functions/tests/01-dosa-counter.spec.js:43-61 | omitting quantity and spice flag is the same as asking for one non-spicy dosa |
| DosaCounter.DosaMenuExamples | Javascript/js-functions/tests/01-dosa-counter.spec.js:5-39 | plain 40, masala 60, onion 50, butter 70, paper 90, cheese 80, and the full record for a default plain order |
| DosaCounter.DosaOrderExamples | Javascript/js-functions/tests/01-dosa-counter.spec.js:64-113 | spicy plain 50, spicy masala 70, plain masala 60, 3 masala 180, 2 spicy masala (70, 140), 5 cheese 400 |
| DosaCounter.DosaRejectionExamples | Javascript/js-functions/tests/01-dosa-counter.spec.js:116-136 | unknown type, quantity 0 or negative, and a missing type give no order |
| TiffinService.CreateTiffinPlan | Javascript/js-functions/tests/03-tiffin-service.spec.js:9-58 | a plan exists iff the name is present and non-empty and the meal type (default veg) has a rate; days default to 30; the daily rate is the meal type's rate and the total cost is rate × days |
| TiffinService.BreakdownCounts | Javascript/js-functions/tests/03-tiffin-service.spec.js:72-76 | the meal breakdown has exactly the meal types that occur, each mapped to its number of plans |
| TiffinService.CombinePlans | Javascript/js-functions/tests/03-tiffin-service.spec.js:61-92 | None iff there are no plans; otherwise customers = number of plans, revenue = sum of total costs, breakdown = plans per meal type |
| TiffinService.CombineAppend | Javascript/js-functions/tests/03-tiffin-service.spec.js:66-92 | revenue and per-type counts of two lists of plans joined are the sums of the parts |
| TiffinService.AddonTotalAppend | Javascript/js-functions/tests/03-tiffin-service.spec.js:104-108 | the add-on price total of two lists joined is the sum of their totals |
| TiffinService.CountsAddUp | Javascript/js-functions/tests/03-tiffin-service.spec.js:72-82 | when the listed meal types are distinct and cover every plan, their counts add up to the number of plans |
| TiffinService.ApplyAddons | Javascript/js-functions/tests/03-tiffin-service.spec.js:98-132 | None iff there is no plan; otherwise a new plan with the same name, meal type and days, daily rate raised by the sum of add-on prices, cost recomputed from the new rate, and the add-on names in order |
| TiffinService.ApplyAddonsTwice | Javascript/js-functions/tests/03-tiffin-service.spec.js:104-108 | add-ons applied in two rounds give the same plan as applying them all at once |
| TiffinService.CreateTiffinPlanExamples | Javascript/js-functions/tests/03-tiffin-service.spec.js:9-58 | the tested default, nonveg, jain and custom-days plans, and the rejected keto, missing, empty and argument-less requests |
| TiffinService.CombinePlansExamples | Javascript/js-functions/tests/03-tiffin-service.spec.js:66-92 | two plans: 2 customers, revenue 4200; three plans: 3 customers, 6600, veg 2 and nonveg 1; none: None; one plan: 2400 |
| TiffinService.ApplyAddonsExamples | Javascript/js-functions/tests/03-tiffin-service.spec.js:98-132 | raita gives rate 95 and cost 2850; raita + papad give 105, 3150 and the names in order; no plan gives None; no add-ons keeps the plan |
| BollywoodDirector.CreateDialogueWriter | Javascript/js-functions/src/04-bollywood-director.js:10-17 | a writer exists iff the genre is action, romance, comedy or drama, and each name selects its own genre |
| BollywoodDirector.Dialogue | Javascript/js-functions/src/04-bollywood-director.js:11-18 | "..." iff the hero or the villain is missing or empty; otherwise the line starts with the hero, the genre's verb and ": '", ends with "'" and names the villain |
| BollywoodDirector.Quote | Javascript/js-functions/src/04-bollywood-director.js:13-16 | each genre's quote contains the villain's name at the template's position |
| BollywoodDirector.DialogueOfNamed | Javascript/js-functions/src/04-bollywood-director.js:11-16 | for a named hero and villain the line is exactly hero, verb, and the quoted template |
| BollywoodDirector.ActionExample | Javascript/js-functions/tests/04-bollywood-director.spec.js:13-18 | the action template for the example hero and villain |
| BollywoodDirector.RomanceExample | Javascript/js-functions/tests/04-bollywood-director.spec.js:20-25 | the romance line for Raj and Simran |
| BollywoodDirector.ComedyExample | Javascript/js-functions/tests/04-bollywood-director.spec.js:27-32 | the comedy line for Munna and Circuit |
| BollywoodDirector.DramaExample | Javascript/js-functions/tests/04-bollywood-director.spec.js:34-39 | the drama line for Rahul and Anjali |
| BollywoodDirector.DialogueEdgeExamples | Javascript/js-functions/tests/04-bollywood-director.spec.js:41-55 | "horror" gives no writer; an empty or missing hero or villain gives "..." |
| BollywoodDirector.CreateTicketPricer | Javascript/js-functions/src/04-bollywood-director.js:20-26 | a pricer exists iff the base price is present and positive, and it keeps that base price |
| BollywoodDirector.Price | Javascript/js-functions/src/04-bollywood-director.js:21-25 | a price exists iff the seat is silver, gold or platinum; it is the nearest integer to base × multiplier × (1.3 at weekends) |
| BollywoodDirector.PriceMonotone | Javascript/js-functions/src/04-bollywood-director.js:22-23 | silver ≤ gold ≤ platinum, and a weekend never costs less than a weekday |
| BollywoodDirector.SilverWeekdayIsBase | Javascript/js-functions/src/04-bollywood-director.js:22-24 | a whole base price is charged unchanged for a weekday silver seat |
| BollywoodDirector.TicketPricerExamples | Javascript/js-functions/tests/04-bollywood-director.spec.js:58-99 | base 200: silver 200, gold 300, platinum 400, gold weekend 390, silver weekend 260, vip None; base -100 and 0 give no pricer |
| Numbers.Round | Javascript/js-functions/src/04-bollywood-director.js:24 | the rounded value lies within half of the exact value, rounding halves up |
| Numbers.RoundMonotone | Javascript/js-functions/src/04-bollywood-director.js:24 | rounding preserves order |
| Numbers.RoundOfInt | Javascript/js-functions/src/04-bollywood-director.js:24 | a whole number rounds to itself |
| DabbawalaTracker.PendingPlusCompleted | Javascript/js-functions/tests/05-dabbawala-tracker.spec.js:83-93 | every delivery is counted as pending or as completed, so the two counts add up to the total |
| DabbawalaTracker.CompleteMovesOne | Javascript/js-functions/tests/05-dabbawala-tracker.spec.js:44-47 | completing one pending delivery raises the completed count by one and lowers the pending count by one |
| DabbawalaTracker.Hundredths | Javascript/js-functions/tests/05-dabbawala-tracker.spec.js:95-110 | the success rate in hundredths of a percent, rounded half up; 0 with no deliveries; at most 10000 |
| DabbawalaTracker.HundredthsEnds | Javascript/js-functions/tests/05-dabbawala-tracker.spec.js:102-110 | all completed is 10000 and none completed is 0 |
| DabbawalaTracker.PercentText | Javascript/js-functions/tests/05-dabbawala-tracker.spec.js:95-100 | the text is whole digits, '.', two digits and '%', and its digits read back as the given hundredths |
| DabbawalaTracker.PercentTextExamples | Javascript/js-functions/tests/05-dabbawala-tracker.spec.js:95-110 | "0.00%", "50.00%" and "100.00%" |
| DabbawalaTracker.Dabbawala.constructor | Javascript/js-functions/tests/05-dabbawala-tracker.spec.js:6-8 | a tracker with the given name and area, no deliveries and the next id 1 |
| DabbawalaTracker.Dabbawala.AddDelivery | Javascript/js-functions/tests/05-dabbawala-tracker.spec.js:11-40 | with both places present and non-empty: returns the next id, appends a pending delivery with that id and advances the counter; otherwise returns -1 and changes nothing |
| DabbawalaTracker.Dabbawala.CompleteDelivery | Javascript/js-functions/tests/05-dabbawala-tracker.spec.js:44-57 | true iff a pending delivery has that id, which then becomes completed and nothing else changes; false leaves the deliveries as they were; the completed count rises by one exactly on true |
| DabbawalaTracker.Dabbawala.GetActiveDeliveries | Javascript/js-functions/tests/05-dabbawala-tracker.spec.js:61-79 | the pending deliveries in the order they were added (the filter of the list by status), each as often as it is stored; with the completed ones they make up the total |
| DabbawalaTracker.Dabbawala.GetStats | Javascript/js-functions/tests/05-dabbawala-tracker.spec.js:83-110 | name and area as given, total, completed and pending counts that add up, and the success rate text of completed over total |
| DabbawalaTracker.Dabbawala.Reset | Javascript/js-functions/tests/05-dabbawala-tracker.spec.js:114-131 | returns true, empties the deliveries and restarts the ids at 1 |
| DabbawalaTracker.AddDeliveryScenario | Javascript/js-functions/tests/05-dabbawala-tracker.spec.js:11-40 | ids 1, 2, 3, then -1 for each empty or missing place |
| DabbawalaTracker.CompleteDeliveryScenario | Javascript/js-functions/tests/05-dabbawala-tracker.spec.js:44-57 | true for a pending id, false for an unknown id, false on a second completion |
| DabbawalaTracker.CompletedThenPending | Javascript/js-functions/tests/05-dabbawala-tracker.spec.js:61-69 | with one completed and one pending delivery, only the second is pending and one is completed |
| DabbawalaTracker.StatsScenario | Javascript/js-functions/tests/05-dabbawala-tracker.spec.js:61-100 | after two adds and one completion: the only active delivery is id 2, and the stats are Ram, Dadar, 2, 1, 1, "50.00%" |
| DabbawalaTracker.RateScenario | Javascript/js-functions/tests/05-dabbawala-tracker.spec.js:71-79 | a fresh tracker reports "0.00%"; one completed delivery reports "100.00%" and no active delivery |
| DabbawalaTracker.ResetScenario | Javascript/js-functions/tests/05-dabbawala-tracker.spec.js:114-131 | reset returns true, total 0, no active delivery, and the next id is 1 |
| DabbawalaTracker.IndependenceScenario | Javascript/js-functions/tests/05-dabbawala-tracker.spec.js:145-161 | two trackers keep separate totals (2 and 1) and separate counters |
| ShaadiRsvp.ProcessGuests | Javascript/js-functions/src/06-shaadi-rsvp.js:10-14 | [] when the list or the filter is missing; otherwise exactly the guests the filter accepts, in their original order (the filter of the list), each kept as often as it occurs |
| ShaadiRsvp.NotifyGuests | Javascript/js-functions/src/06-shaadi-rsvp.js:16-20 | [] when the list or the callback is missing; otherwise one callback result per guest, in guest order |
| ShaadiRsvp.HandleRsvp | Javascript/js-functions/src/06-shaadi-rsvp.js:22-26 | a result iff guest and both callbacks are present and the answer is "yes" or "no"; "yes" gives onAccept's result, "no" gives onDecline's |
| ShaadiRsvp.TransformGuestList | Javascript/js-functions/src/06-shaadi-rsvp.js:28-33 | [] when the list is missing; with no transforms, the list itself |
| ShaadiRsvp.TransformInStages | Javascript/js-functions/src/06-shaadi-rsvp.js:28-32 | transforming by fs then by gs is transforming by fs + gs (left to right) |
| ShaadiRsvp.TransformLast | Javascript/js-functions/src/06-shaadi-rsvp.js:31 | the last transform runs last |
| ShaadiRsvp.TransformTwo | Javascript/js-functions/src/06-shaadi-rsvp.js:31 | with two transforms, the first runs first |
| ShaadiRsvp.FilterOfFive | Javascript/js-functions/src/06-shaadi-rsvp.js:10-13 | filtering five guests keeps, in order, those the filter accepts |
| ShaadiRsvp.ProcessGuestsBySide | Javascript/js-functions/tests/06-shaadi-rsvp.spec.js:18-22 | the bride's side is Rahul, Amit and Vikram |
| ShaadiRsvp.ProcessGuestsByRsvp | Javascript/js-functions/tests/06-shaadi-rsvp.spec.js:24-27 | the accepted guests are Rahul, Amit and Neha |
| ShaadiRsvp.ProcessGuestsNoMatch | Javascript/js-functions/tests/06-shaadi-rsvp.spec.js:29-32 | no guest is on an unknown side |
| ShaadiRsvp.ProcessGuestsMissing | Javascript/js-functions/tests/06-shaadi-rsvp.spec.js:34-42 | a missing list or filter gives [] |
| ShaadiRsvp.NotifyGuestsExample | Javascript/js-functions/tests/06-shaadi-rsvp.spec.js:55-69 | one notice per guest, in guest order |
| ShaadiRsvp.HandleRsvpExamples | Javascript/js-functions/tests/06-shaadi-rsvp.spec.js:90-132 | "Amit is coming!", "Priya declined", and no result for "maybe", a missing guest or a missing callback |
| ShaadiRsvp.TransformSingleExample | Javascript/js-functions/tests/06-shaadi-rsvp.spec.js:158-162 | a single bride-side filter keeps three guests |
| ShaadiRsvp.TransformFilterThenSort | Javascript/js-functions/tests/06-shaadi-rsvp.spec.js:164-172 | filtering the accepted guests and then sorting by name gives Amit, Neha, Rahul |
| ShaadiRsvp.SortAccepted | Javascript/js-functions/tests/06-shaadi-rsvp.spec.js:166-172 | sorting Rahul, Amit, Neha by name gives Amit, Neha, Rahul |
| ShaadiRsvp.TransformExamples | Javascript/js-functions/tests/06-shaadi-rsvp.spec.js:181-195 | no transforms keeps the five guests; a missing list gives []; an empty list stays empty |
| Sequences.FilterKeeps | Javascript/js-functions/src/06-shaadi-rsvp.js:13 | a filter keeps exactly the accepted elements, each as often as it occurs, and never lengthens the list |
| Sequences.FilterAppend | Javascript/js-functions/src/06-shaadi-rsvp.js:13 | filtering a concatenation is concatenating the filtered parts |
| Sequences.FilterIdempotent | Javascript/js-functions/src/06-shaadi-rsvp.js:13 | filtering twice by the same test is filtering once |
| Sequences.Map | Javascript/js-functions/src/06-shaadi-rsvp.js:17-19 | one result per element, in order |
| Sequences.Reverse | Javascript/js-functions/tests/10-masala-blender.spec.js:92-96 | the reversed list has the same length and element i is element n - 1 - i of the input |
| Pipeline.ApplyLeftAppend | Javascript/js-functions/src/06-shaadi-rsvp.js:30-31 | a left fold over fs + gs is the fold over gs of the fold over fs |
| Pipeline.ApplyRightIsReversedLeft | Javascript/js-functions/tests/10-masala-blender.spec.js:92-96 | the right-to-left fold is the left-to-right fold of the reversed list |
| MehndiPattern.RepeatChar | Javascript/js-functions/src/07-mehndi-pattern.js:10-14 | "" for a missing or empty motif or n ≤ 0; otherwise n copies of the motif: its length is n × the motif's, it starts with the motif and repeats with the motif's period |
| MehndiPattern.RepeatCharAdds | Javascript/js-functions/src/07-mehndi-pattern.js:13 | repeating m + n times is repeating m times followed by n times |
| MehndiPattern.RepeatCharExamples | Javascript/js-functions/tests/07-mehndi-pattern.spec.js:5-26 | "****", "", "ababab", and "" for a non-string motif or negative n |
| MehndiPattern.SumNestedArray | Javascript/js-functions/src/07-mehndi-pattern.js:16-21 | 0 for a non-array; otherwise the sum, as an exact real, of the numbers among the flattened leaves |
| MehndiPattern.FlattenArray | Javascript/js-functions/src/07-mehndi-pattern.js:23-26 | [] for a non-array; every element of the result is a leaf |
| MehndiPattern.Leaves | Javascript/js-functions/src/07-mehndi-pattern.js:23-25 | the leaves of a value, in left-to-right order, none of them an array; an array contributes the leaves of its items in order (LeavesOfAppend, LeavesOfSingle) |
| MehndiPattern.LeavesOf | Javascript/js-functions/src/07-mehndi-pattern.js:23-25 | the leaves of a list of items, none of them an array |
| MehndiPattern.LeavesOfAppend | Javascript/js-functions/src/07-mehndi-pattern.js:23-25 | the leaves of two lists joined are the leaves of the first followed by those of the second |
| MehndiPattern.LeavesOfSingle | Javascript/js-functions/src/07-mehndi-pattern.js:23-25 | a single item contributes its own leaves if it is an array, and itself otherwise |
| MehndiPattern.FlattenArrayLaws | Javascript/js-functions/src/07-mehndi-pattern.js:23-26 | flattening an array of a + b is flattening a then b; a one-item array flattens to that item, or to its flattening if it is an array |
| MehndiPattern.SumNumbersAppend | Javascript/js-functions/src/07-mehndi-pattern.js:17-19 | the sum of numbers over a concatenation is the sum of the parts |
| MehndiPattern.TotalFlat | Javascript/js-functions/src/07-mehndi-pattern.js:16-20 | the recursive nested sum equals the sum of the numbers among the leaves |
| MehndiPattern.TotalOfFlat | Javascript/js-functions/src/07-mehndi-pattern.js:16-20 | the nested sum of a list of items equals the sum of the numbers among their leaves |
| MehndiPattern.FlattenFlat | Javascript/js-functions/src/07-mehndi-pattern.js:23-25 | an array without nested arrays flattens to itself |
| MehndiPattern.FlattenIdempotent | Javascript/js-functions/src/07-mehndi-pattern.js:23-25 | flattening a flattened array changes nothing |
| MehndiPattern.SumNestedArrayExample | Javascript/js-functions/tests/07-mehndi-pattern.spec.js:29-31 | [1, [2, [3, 4]], 5] sums to 15 |
| MehndiPattern.SumNestedArraySkipsText | Javascript/js-functions/tests/07-mehndi-pattern.spec.js:37-39 | [1, "two", [3]] sums to 4 |
| MehndiPattern.SumNestedArrayDeep | Javascript/js-functions/tests/07-mehndi-pattern.spec.js:48-51 | a deeply nested 10 sums to 10 |
| MehndiPattern.SumNestedArrayEdges | Javascript/js-functions/tests/07-mehndi-pattern.spec.js:33-46 | the empty array and non-arrays sum to 0 |
| MehndiPattern.SumNestedArrayFraction | Javascript/js-functions/src/07-mehndi-pattern.js:16-21 | [1.5, [2]] sums to 3.5, so non-integer numbers are added as they are |
| MehndiPattern.FlattenSampleExample | Javascript/js-functions/tests/07-mehndi-pattern.spec.js:54-56 | [1, [2, [3, 4]], 5] flattens to [1, 2, 3, 4, 5] |
| MehndiPattern.FlattenArrayExamples | Javascript/js-functions/tests/07-mehndi-pattern.spec.js:58-75 | [] for the empty array and for non-arrays; a flat array unchanged; a deep single leaf flattened |
| MehndiPattern.IsPalindrome | Javascript/js-functions/src/07-mehndi-pattern.js:28-33 | false for a non-string; otherwise true iff the lower-cased string equals its reverse |
| MehndiPattern.MirroredIffReversed | Javascript/js-functions/src/07-mehndi-pattern.js:31-32 | the recursive first-and-last comparison holds iff the string equals its reverse |
| MehndiPattern.ReverseEnds | Javascript/js-functions/src/07-mehndi-pattern.js:32 | the reverse swaps the first and last characters and reverses the middle |
| MehndiPattern.PalindromeMadam | Javascript/js-functions/tests/07-mehndi-pattern.spec.js:78-88 | "madam" and "Madam" are palindromes |
| MehndiPattern.PalindromeRacecar | Javascript/js-functions/tests/07-mehndi-pattern.spec.js:82-84 | "racecar" is a palindrome |
| MehndiPattern.NotPalindromeHello | Javascript/js-functions/tests/07-mehndi-pattern.spec.js:90-92 | "hello" is not a palindrome |
| MehndiPattern.PalindromeEdges | Javascript/js-functions/tests/07-mehndi-pattern.spec.js:94-107 | "" and "a" are palindromes; a non-string is not |
| MehndiPattern.Stars | Javascript/js-functions/src/07-mehndi-pattern.js:37-40 | a row of k stars is k long |
| MehndiPattern.StarsRepeat | Javascript/js-functions/src/07-mehndi-pattern.js:37-40 | a row of k stars is "*" repeated k times |
| MehndiPattern.Ascending | Javascript/js-functions/src/07-mehndi-pattern.js:40-41 | the ascending half has rows of 1 to k stars |
| MehndiPattern.GeneratePattern | Javascript/js-functions/src/07-mehndi-pattern.js:35-43 | [] for n ≤ 0 or a non-integer n; otherwise 2n - 1 rows, row i has min(i + 1, rows - i) stars, and the pattern reads the same from both ends |
| MehndiPattern.GeneratePatternExamples | Javascript/js-functions/tests/07-mehndi-pattern.spec.js:110-132 | the patterns for n = 1 and 2, and [] for 0, -3 and 2.5 |
| MehndiPattern.GeneratePatternThree | Javascript/js-functions/tests/07-mehndi-pattern.spec.js:110-132 | the pattern for n = 3 rises to three stars and falls back |
| DhabaRating.FilterOnNumbers | Javascript/js-functions/tests/08-dhaba-rating.spec.js:12-50 | on a numeric field, the filters for >=, >, <, <= and === hold iff the field relates that way to the value |
| DhabaRating.FilterOnStrings | Javascript/js-functions/tests/08-dhaba-rating.spec.js:25-30 | "===" on a string holds iff the field is that string; a missing field fails every filter |
| DhabaRating.UnknownOperatorRejects | Javascript/js-functions/tests/08-dhaba-rating.spec.js:52-57 | a filter with an unknown operator keeps nothing |
| DhabaRating.KeyLeTotalPreorder | Javascript/js-functions/tests/08-dhaba-rating.spec.js:61-85 | the key comparison behind the sorter is total and transitive |
| DhabaRating.StringOrder | Javascript/js-functions/tests/08-dhaba-rating.spec.js:72-77 | alphabetical "no later than" is total and transitive |
| DhabaRating.KeyLeOrder | Javascript/js-functions/tests/08-dhaba-rating.spec.js:61-85 | the key comparison is total and transitive for all keys at once |
| Text.LexLessTransitive | Javascript/js-functions/tests/08-dhaba-rating.spec.js:72-77 | alphabetical order is transitive |
| Text.LexLessTotal | Javascript/js-functions/tests/08-dhaba-rating.spec.js:72-77 | of two different strings one sorts before the other |
| DhabaRating.SortBySorter | Javascript/js-functions/tests/08-dhaba-rating.spec.js:61-85 | sorting by a sorter is a permutation in which neighbours are in ascending key order, or descending for "desc" |
| DhabaRating.Pick | Javascript/js-functions/tests/08-dhaba-rating.spec.js:88-105 | the picked object has exactly the listed fields the item has, with the item's values |
| DhabaRating.CreateFilter | Javascript/js-functions/tests/08-dhaba-rating.spec.js:12-57 | for an item with a number in the field, kept iff the comparison holds against a number value; an item without the field is dropped; an unknown operator drops everything |
| DhabaRating.CreateSorter | Javascript/js-functions/tests/08-dhaba-rating.spec.js:61-85 | the sorter is a total and transitive "no later than" relation on items, in either direction |
| DhabaRating.CreateMapper | Javascript/js-functions/tests/08-dhaba-rating.spec.js:88-105 | the picked item has exactly the listed fields the item has, with their values |
| DhabaRating.ApplyOperations | Javascript/js-functions/tests/08-dhaba-rating.spec.js:108-134 | [] for non-array data; the data itself with no operations |
| DhabaRating.ApplyOperationsAppend | Javascript/js-functions/tests/08-dhaba-rating.spec.js:108-117 | applying ops1 + ops2 is applying ops2 to the result of ops1 (left to right) |
| DhabaRating.ApplyOperationsLast | Javascript/js-functions/tests/08-dhaba-rating.spec.js:108-117 | one more operation at the end is applied to the result of the earlier ones |
| DhabaRating.ApplyOperationsOne | Javascript/js-functions/tests/08-dhaba-rating.spec.js:130-134 | a single operation is that operation applied to the data |
| DhabaRating.FilterRatingAtLeastExample | Javascript/js-functions/tests/08-dhaba-rating.spec.js:17-23 | rating >= 4 keeps Punjab Dhaba and Highway King |
| DhabaRating.FilterRatingAboveExample | Javascript/js-functions/tests/08-dhaba-rating.spec.js:39-44 | rating > 4 keeps Punjab Dhaba |
| DhabaRating.FilterInDelhiExample | Javascript/js-functions/tests/08-dhaba-rating.spec.js:25-30 | city === "Delhi" keeps Punjab Dhaba and Highway King |
| DhabaRating.FilterPriceBelowExample | Javascript/js-functions/tests/08-dhaba-rating.spec.js:32-37 | price < 200 keeps Sharma Ji and Truck Stop |
| DhabaRating.FilterPriceAtMostExample | Javascript/js-functions/tests/08-dhaba-rating.spec.js:46-50 | price <= 150 keeps Sharma Ji and Truck Stop |
| DhabaRating.FilterUnknownOperatorExample | Javascript/js-functions/tests/08-dhaba-rating.spec.js:52-57 | "!=" keeps nothing |
| DhabaRating.PickOfDhaba | Javascript/js-functions/tests/08-dhaba-rating.spec.js:92-105 | picking name and rating, or name alone, of a dhaba record |
| DhabaRating.MapperExamples | Javascript/js-functions/tests/08-dhaba-rating.spec.js:92-105 | the mapper for ["name", "rating"] and for ["name"] on Punjab Dhaba |
| DhabaRating.SortByRatingDescExample | Javascript/js-functions/tests/08-dhaba-rating.spec.js:65-70 | by rating descending: Punjab Dhaba, Highway King, Sharma Ji, Truck Stop |
| DhabaRating.SortByNameExample | Javascript/js-functions/tests/08-dhaba-rating.spec.js:72-77 | by name: Highway King, Punjab Dhaba, Sharma Ji, Truck Stop |
| DhabaRating.SortByPriceExample | Javascript/js-functions/tests/08-dhaba-rating.spec.js:79-85 | by price by default: Truck Stop, Sharma Ji, Punjab Dhaba, Highway King |
| DhabaRating.ChainSortStep | Javascript/js-functions/tests/08-dhaba-rating.spec.js:108-117 | the two high-rated dhabas stay in rating-descending order |
| DhabaRating.ChainMapStep | Javascript/js-functions/tests/08-dhaba-rating.spec.js:108-117 | picking name and rating of the two high-rated dhabas |
| DhabaRating.ApplyOperationsChainExample | Javascript/js-functions/tests/08-dhaba-rating.spec.js:108-117 | filter rating >= 4, sort by rating descending and pick name and rating give the two expected records |
| DhabaRating.ApplyOperationsExamples | Javascript/js-functions/tests/08-dhaba-rating.spec.js:119-128 | non-array data gives []; no operations returns the data |
| DhabaRating.ApplyOperationsSingleExample | Javascript/js-functions/tests/08-dhaba-rating.spec.js:130-134 | a single Delhi filter keeps two dhabas |
| HoliColors.Average | Javascript/js-functions/tests/09-holi-colors.spec.js:10-18 | the average of two channels, rounded half up |
| HoliColors.MixColors | Javascript/js-functions/tests/09-holi-colors.spec.js:10-39 | None iff either colour is missing; otherwise named "n1-n2" with each channel the rounded average |
| HoliColors.MixColorsProperties | Javascript/js-functions/tests/09-holi-colors.spec.js:10-18 | mixing stays in 0..255, is symmetric in the channels, and mixing a colour with itself keeps its channels |
| HoliColors.Scale | Javascript/js-functions/tests/09-holi-colors.spec.js:43-63 | the scaled channel is clamped to 0..255, and inside the range it is the nearest integer to channel × factor |
| HoliColors.AdjustBrightness | Javascript/js-functions/tests/09-holi-colors.spec.js:43-80 | None iff the colour or the factor is missing; otherwise the same name with every channel scaled and clamped |
| HoliColors.AdjustBrightnessUnitAndZero | Javascript/js-functions/tests/09-holi-colors.spec.js:58-63 | factor 1 keeps an in-range colour and factor 0 makes it black |
| HoliColors.AdjustBrightnessMonotone | Javascript/js-functions/tests/09-holi-colors.spec.js:43-56 | a larger factor never darkens a channel |
| HoliColors.ScaleMonotone | Javascript/js-functions/tests/09-holi-colors.spec.js:43-56 | scaling a non-negative channel is monotone in the factor |
| HoliColors.AddToPalette | Javascript/js-functions/tests/09-holi-colors.spec.js:84-109 | the palette (empty if not an array) followed by the colour when there is one |
| HoliColors.RemoveFromPalette | Javascript/js-functions/tests/09-holi-colors.spec.js:113-137 | no colour of that name remains; [] for a non-array; exactly the other colours remain, each as often as in the palette; a palette without the name is returned as it was |
| HoliColors.RemoveFromPaletteLaws | Javascript/js-functions/tests/09-holi-colors.spec.js:113-137 | removing from a + b is removing from a then from b, in that order; a single colour is dropped iff it has that name |
| HoliColors.MergeIntoExtends | Javascript/js-functions/tests/09-holi-colors.spec.js:141-148 | merging keeps the first palette as a prefix and adds only colours from the second |
| HoliColors.MergeIntoNames | Javascript/js-functions/tests/09-holi-colors.spec.js:141-148 | a name occurs in the merge iff it occurs in either palette |
| HoliColors.MergeIntoName | Javascript/js-functions/tests/09-holi-colors.spec.js:141-148 | for one name: it occurs in the merge iff it occurs in either palette |
| HoliColors.MergeIntoDistinct | Javascript/js-functions/tests/09-holi-colors.spec.js:141-148 | merging into a palette with distinct names keeps the names distinct |
| HoliColors.MergePalettes | Javascript/js-functions/tests/09-holi-colors.spec.js:141-168 | the first palette then colours from the second; the names are those of either palette; each added colour has a name not seen before it, so the first colour of a name wins; no duplicate names when the first has none; a non-array counts as empty |
| HoliColors.MergePalettesSnoc | Javascript/js-functions/tests/09-holi-colors.spec.js:141-168 | merging with an empty palette keeps the first; one more colour at the end of the second is added at the end iff its name is not yet present |
| HoliColors.MergeIntoSnoc | Javascript/js-functions/tests/09-holi-colors.spec.js:141-148 | merging rest + [c] is merging rest and then adding c at the end unless its name is already there |
| HoliColors.MergeIntoFresh | Javascript/js-functions/tests/09-holi-colors.spec.js:141-148 | every colour the merge adds after the accumulator has a name not present before it |
| HoliColors.MixColorsExamples | Javascript/js-functions/tests/09-holi-colors.spec.js:10-39 | red-blue (128, 0, 128), red-green (128, 128, 0), and None for a missing colour |
| HoliColors.AdjustBrightnessExamples | Javascript/js-functions/tests/09-holi-colors.spec.js:43-80 | gray doubled is 200s, bright doubled is clamped to 255, factor 0 is black, the name survives 1.5, missing inputs give None |
| HoliColors.AddToPaletteExamples | Javascript/js-functions/tests/09-holi-colors.spec.js:84-109 | appending to a palette, to a non-array, and appending nothing |
| HoliColors.RemoveFromPaletteExamples | Javascript/js-functions/tests/09-holi-colors.spec.js:113-137 | removing green from red, green, blue, and removing from a non-array |
| HoliColors.RemoveAbsentExample | Javascript/js-functions/tests/09-holi-colors.spec.js:113-137 | removing an absent name returns the palette unchanged |
| HoliColors.MergePalettesExamples | Javascript/js-functions/tests/09-holi-colors.spec.js:141-168 | red, green + blue, red gives red, green, blue; non-arrays count as empty |
| MasalaBlender.Grind | Javascript/js-functions/tests/10-masala-blender.spec.js:5-13 | the spice with form "powder" added and every other field kept |
| MasalaBlender.Roast | Javascript/js-functions/tests/10-masala-blender.spec.js:17-20 | the spice with roasted and aroma "strong" added and every other field kept |
| MasalaBlender.Mix | Javascript/js-functions/tests/10-masala-blender.spec.js:23-26 | the spice with mixed added and every other field kept |
| MasalaBlender.Pack | Javascript/js-functions/tests/10-masala-blender.spec.js:29-35 | the spice with packed and label = name + " Masala" added and every other field kept |
| MasalaBlender.StepsIdempotent | Javascript/js-functions/tests/10-masala-blender.spec.js:5-35 | each step applied twice is the step applied once |
| MasalaBlender.GrindRoastCommute | Javascript/js-functions/tests/10-masala-blender.spec.js:75-79 | grinding and roasting commute |
| MasalaBlender.GrindPackCommute | Javascript/js-functions/tests/10-masala-blender.spec.js:45-55 | grinding and packing commute |
| MasalaBlender.RoastPackCommute | Javascript/js-functions/tests/10-masala-blender.spec.js:45-55 | roasting and packing commute |
| MasalaBlender.Pipe | Javascript/js-functions/tests/10-masala-blender.spec.js:39-71 | pipe() is the identity; otherwise the last function runs on the result of piping the others, left to right |
| MasalaBlender.Compose | Javascript/js-functions/tests/10-masala-blender.spec.js:75-96 | compose runs the functions right to left: it is the left-to-right application of the reversed list |
| MasalaBlender.PipeComposeBase | Javascript/js-functions/tests/10-masala-blender.spec.js:57-72 | pipe() and compose() are the identity, and with one function both apply just that function |
| MasalaBlender.PipeAppend | Javascript/js-functions/tests/10-masala-blender.spec.js:39-43 | pipe(fs + gs) runs fs first and then gs |
| MasalaBlender.ComposeReversedIsPipe | Javascript/js-functions/tests/10-masala-blender.spec.js:92-96 | compose of the reversed list equals pipe of the list |
| MasalaBlender.Steps | Javascript/js-functions/tests/10-masala-blender.spec.js:100-116 | the recipe has at most one step per name |
| MasalaBlender.StepsOfOne | Javascript/js-functions/tests/10-masala-blender.spec.js:109-116 | one name gives its step if it is known and no step otherwise |
| MasalaBlender.CreateRecipe | Javascript/js-functions/tests/10-masala-blender.spec.js:118-134 | with no array of steps, or an empty one, the recipe returns every spice unchanged |
| MasalaBlender.CreateRecipeOfOne | Javascript/js-functions/tests/10-masala-blender.spec.js:100-134 | a one-name recipe applies that step if the name is known and leaves the spice unchanged otherwise |
| MasalaBlender.CreateRecipeSnoc | Javascript/js-functions/tests/10-masala-blender.spec.js:100-134 | a recipe with one more name at the end runs that step, if known, on the result of the rest |
| MasalaBlender.StepsSkipUnknown | Javascript/js-functions/tests/10-masala-blender.spec.js:109-116 | unknown step names contribute nothing: the steps equal those of the known names alone |
| MasalaBlender.StepsAppend | Javascript/js-functions/tests/10-masala-blender.spec.js:100-107 | the steps of two name lists joined are the two step lists joined |
| MasalaBlender.CreateRecipeRunsSteps | Javascript/js-functions/tests/10-masala-blender.spec.js:100-107 | a recipe for a + b runs the recipe for a and then the recipe for b |
| MasalaBlender.StepExamples | Javascript/js-functions/tests/10-masala-blender.spec.js:5-35 | the records produced for Haldi, Jeera, Mix and Garam |
| MasalaBlender.PipeExample | Javascript/js-functions/tests/10-masala-blender.spec.js:45-55 | pipe(grind, roast, pack) on Garam gives the full record |
| MasalaBlender.NumberExamples | Javascript/js-functions/tests/10-masala-blender.spec.js:63-90 | pipe(x + 1, x × 2)(3) = 8 and compose(x + 1, x × 2)(3) = 7 |
| MasalaBlender.StepsExample | Javascript/js-functions/tests/10-masala-blender.spec.js:109-116 | "grind", "blitz", "pack" gives the steps grind and pack |
| MasalaBlender.RecipeExamples | Javascript/js-functions/tests/10-masala-blender.spec.js:100-134 | a recipe skipping an unknown name, and the identity for [] and for no array |
| FestivalPlanner.RemoveAtKeepsOthers | Javascript/js-functions/tests/11-festival-planner.spec.js:42-57 | removing one festival keeps the names distinct and keeps exactly the festivals with other names |
| FestivalPlanner.DateLeTotalAndTransitive | Javascript/js-functions/tests/11-festival-planner.spec.js:94-104 | ordering by date is total and transitive |
| FestivalPlanner.EarliestAfter | Javascript/js-functions/tests/11-festival-planner.spec.js:94-120 | the first k of the date-sorted festivals after a date: min(k, count) of them, all after the date, drawn from the list, sorted, and none later than any left out |
| FestivalPlanner.FestivalManager.constructor | Javascript/js-functions/tests/11-festival-planner.spec.js:6-8 | an empty planner |
| FestivalPlanner.FestivalManager.AddFestival | Javascript/js-functions/tests/11-festival-planner.spec.js:11-38 | with a present, non-empty, new name and a valid type: appends the festival and returns the new count; otherwise returns -1 and changes nothing |
| FestivalPlanner.FestivalManager.RemoveFestival | Javascript/js-functions/tests/11-festival-planner.spec.js:42-57 | true iff a festival had that name; when false the list is unchanged; when true the list is the old one with one festival of that name cut out at its index |
| FestivalPlanner.FestivalManager.GetAll | Javascript/js-functions/tests/11-festival-planner.spec.js:61-74 | every festival, in insertion order, as a new value |
| FestivalPlanner.FestivalManager.GetByType | Javascript/js-functions/tests/11-festival-planner.spec.js:78-90 | exactly the festivals of that type, in stored order, each as often as it is stored (the filter of the list by type) |
| FestivalPlanner.FestivalManager.GetUpcoming | Javascript/js-functions/tests/11-festival-planner.spec.js:94-120 | min(n, count after the date) festivals (n defaults to 3; none for n ≤ 0), all after the date, from the planner, in date order, and none later than a left-out festival after the date |
| FestivalPlanner.FestivalManager.GetCount | Javascript/js-functions/tests/11-festival-planner.spec.js:124-129 | the number of festivals; 0 iff there are none |
| FestivalPlanner.AddFestivalScenario | Javascript/js-functions/tests/11-festival-planner.spec.js:11-38 | counts 1, 2, 3, then -1 for a duplicate, an empty name and an invalid type |
| FestivalPlanner.RemoveFestivalScenario | Javascript/js-functions/tests/11-festival-planner.spec.js:42-57 | count 2, removal true, count 1, removing an unknown name false |
| FestivalPlanner.GetAllScenario | Javascript/js-functions/tests/11-festival-planner.spec.js:61-74 | both festivals in order; changing the returned list leaves the count at 1 |
| FestivalPlanner.GetByTypeScenario | Javascript/js-functions/tests/11-festival-planner.spec.js:78-90 | two religious festivals; no national one |
| FestivalPlanner.GetUpcomingScenario | Javascript/js-functions/tests/11-festival-planner.spec.js:94-120 | after 2025-02-01, the first two are Holi and Independence Day; nothing after 2025-11-01 |
| FestivalPlanner.UpcomingExample | Javascript/js-functions/tests/11-festival-planner.spec.js:94-120 | the date arithmetic behind the two upcoming queries on the four festivals |
| FestivalPlanner.EarliestTwoExample | Javascript/js-functions/tests/11-festival-planner.spec.js:94-104 | of festivals on 2025-10-20, 2025-01-26, 2025-03-14 and 2025-08-15, the first two after 2025-02-01 are the March and August ones |
| FestivalPlanner.NoneLaterExample | Javascript/js-functions/tests/11-festival-planner.spec.js:116-120 | none of those festivals is after 2025-11-01 |
| FestivalPlanner.DefaultCountScenario | Javascript/js-functions/tests/11-festival-planner.spec.js:106-114 | with four later festivals and no n, three are returned |
| FestivalPlanner.DefaultCountExample | Javascript/js-functions/tests/11-festival-planner.spec.js:106-114 | all four festivals fall after 2024-12-01 |
| FestivalPlanner.IndependenceScenario | Javascript/js-functions/tests/11-festival-planner.spec.js:124-145 | counts 1 and 0 for two planners, one of them changed |
| Sorting.SortPermutes | Javascript/js-functions/tests/11-festival-planner.spec.js:94-104 | sorting keeps exactly the same elements |
| Sorting.SortSorted | Javascript/js-functions/tests/11-festival-planner.spec.js:94-104 | sorting by a total relation gives a sorted list |
| Sorting.SortedPairwise | Javascript/js-functions/tests/11-festival-planner.spec.js:94-104 | in a list sorted by a transitive relation every earlier element is related to every later one |
| Sorting.PrefixOfSorted | Javascript/js-functions/tests/11-festival-planner.spec.js:94-104 | a prefix of a sorted list is sorted, drawn from the list, and no later than the rest |
| PanchayatElection.TallyPure | Javascript/js-functions/tests/12-panchayat-election.spec.js:215-240 | a new tally with the candidate added if absent, its count one more than before (or 1), and every other count unchanged |
| PanchayatElection.VotesOfTally | Javascript/js-functions/tests/12-panchayat-election.spec.js:90-99 | a tally of the ballots gives each candidate its number of ballots |
| PanchayatElection.TallyStep | Javascript/js-functions/tests/12-panchayat-election.spec.js:39-47 | adding one ballot to the tally keeps it a tally of the ballots |
| PanchayatElection.VoteError | Javascript/js-functions/tests/12-panchayat-election.spec.js:49-80 | no error iff the voter is registered, the candidate exists and the voter has not voted; otherwise not_registered, invalid_candidate or already_voted, checked in that order |
| PanchayatElection.Rows | Javascript/js-functions/tests/12-panchayat-election.spec.js:90-99 | one result row per candidate with its id, name, party and vote count |
| PanchayatElection.MoreVotesOrder | Javascript/js-functions/tests/12-panchayat-election.spec.js:111-122 | "at least as many votes" is total and transitive |
| PanchayatElection.RankedFacts | Javascript/js-functions/tests/12-panchayat-election.spec.js:101-122 | ranking keeps the rows; by default votes never increase down the list; with a total comparator the rows are sorted by it |
| PanchayatElection.WinnerFacts | Javascript/js-functions/tests/12-panchayat-election.spec.js:126-139 | no winner iff every row has 0 votes; a winner is a row with positive votes and no fewer than any other |
| PanchayatElection.ConsistentVote | Javascript/js-functions/tests/12-panchayat-election.spec.js:39-47 | a permitted vote keeps the election consistent: voted set, tally and ballot history advance together |
| PanchayatElection.Election.constructor | Javascript/js-functions/tests/12-panchayat-election.spec.js:4-15 | an election over the candidates with no voters, no votes and no ballots |
| PanchayatElection.Election.RegisterVoter | Javascript/js-functions/tests/12-panchayat-election.spec.js:18-35 | true iff the voter has an id and an age of at least 18 and the id is new; then the voter is registered; nothing else changes |
| PanchayatElection.Election.CastVote | Javascript/js-functions/tests/12-panchayat-election.spec.js:39-86 | on an error, returns onError's result and changes nothing; otherwise returns onSuccess's result, marks the voter as voted, adds the vote to the tally and records the ballot |
| PanchayatElection.Election.GetResults | Javascript/js-functions/tests/12-panchayat-election.spec.js:89-122 | one row per candidate with its count; by votes descending by default, or sorted by a supplied total comparator |
| PanchayatElection.Election.GetWinner | Javascript/js-functions/tests/12-panchayat-election.spec.js:125-139 | None iff every candidate has 0 votes; otherwise a candidate's row with positive votes and the most votes |
| PanchayatElection.Election.ResultsCountBallots | Javascript/js-functions/tests/12-panchayat-election.spec.js:90-99 | every result row counts exactly the successful ballots for its candidate, and there is no winner iff no ballot was cast |
| PanchayatElection.MissingField | Javascript/js-functions/tests/12-panchayat-election.spec.js:162-167 | None iff every required field is present; otherwise a required field the voter lacks |
| PanchayatElection.Validate | Javascript/js-functions/tests/12-panchayat-election.spec.js:143-167 | valid iff all required fields are present and a numeric age is not under the minimum; a reason is given exactly when invalid |
| PanchayatElection.CreateVoteValidator | Javascript/js-functions/tests/12-panchayat-election.spec.js:143-147 | the validator checks every voter against the configured minimum age and required fields |
| PanchayatElection.CountVotesInRegions | Javascript/js-functions/tests/12-panchayat-election.spec.js:170-211 | 0 for no region; otherwise the sum of the own votes of the region and all its nested sub-regions |
| PanchayatElection.SumOwnAppend | Javascript/js-functions/tests/12-panchayat-election.spec.js:176-203 | summing the votes of two region lists joined is adding the sums |
| PanchayatElection.CountIsSumOfParts | Javascript/js-functions/tests/12-panchayat-election.spec.js:176-203 | the recursive count (own votes plus the count of each sub-region) equals the sum over the flattened region tree |
| PanchayatElection.CountAllIsSumOfParts | Javascript/js-functions/tests/12-panchayat-election.spec.js:176-203 | the same for a list of sibling regions |
| PanchayatElection.FlatRegionExample | Javascript/js-functions/tests/12-panchayat-election.spec.js:171-174 | a flat district of 100 counts 100; no region (the null and undefined tests right after the nested one) counts 0 |
| PanchayatElection.OneLevelExample | Javascript/js-functions/tests/12-panchayat-election.spec.js:176-186 | a district with two blocks counts 180 |
| PanchayatElection.NestedExample | Javascript/js-functions/tests/12-panchayat-election.spec.js:188-203 | state, district and block count 60 |
| PanchayatElection.TallyPureExamples | Javascript/js-functions/tests/12-panchayat-election.spec.js:215-240 | C1 raised from 5 to 6, C3 added with 1, and 1 in an empty tally |
| PanchayatElection.KnownCandidates | Javascript/js-functions/tests/12-panchayat-election.spec.js:4-8 | C1 and C2 are candidates and C999 is not |
| PanchayatElection.RowsOfCandidates | Javascript/js-functions/tests/12-panchayat-election.spec.js:90-99 | the result rows of the three candidates with their ids, names, parties and counts |
| PanchayatElection.ByNameExample | Javascript/js-functions/tests/12-panchayat-election.spec.js:101-109 | rows for Sarpanch Ram, Pradhan Sita and Mukhiya Gita sort by name as Mukhiya Gita, Pradhan Sita, Sarpanch Ram |
| PanchayatElection.ByVotesExample | Javascript/js-functions/tests/12-panchayat-election.spec.js:111-122 | rows with 1, 2 and 0 votes rank as the 2, then the 1, then the 0 |
| PanchayatElection.ValidatorExamples | Javascript/js-functions/tests/12-panchayat-election.spec.js:149-167 | an adult with all fields is valid; a 16-year-old and a voter without an age are invalid with a reason |
| PanchayatElection.VoterRecordFacts | Javascript/js-functions/tests/12-panchayat-election.spec.js:18-35 | a voter record is eligible iff its id is non-empty and its age is at least 18 |
| PanchayatElection.RegisterVoterScenario | Javascript/js-functions/tests/12-panchayat-election.spec.js:18-35 | true for an adult, then false for a minor, a duplicate id, a missing voter and an empty record |
| PanchayatElection.CastVoteScenario | Javascript/js-functions/tests/12-panchayat-election.spec.js:39-47 | a valid vote returns onSuccess's result for C1 |
| PanchayatElection.UnregisteredVoterScenario | Javascript/js-functions/tests/12-panchayat-election.spec.js:49-57 | an unregistered voter gets onError's string |
| PanchayatElection.UnknownCandidateScenario | Javascript/js-functions/tests/12-panchayat-election.spec.js:59-68 | an unknown candidate gets onError's string |
| PanchayatElection.DoubleVoteScenario | Javascript/js-functions/tests/12-panchayat-election.spec.js:70-80 | a second vote gets onError's string |
| PanchayatElection.CallbackValueScenario | Javascript/js-functions/tests/12-panchayat-election.spec.js:82-86 | castVote returns the callback's value |
| PanchayatElection.ResultsCountScenario | Javascript/js-functions/tests/12-panchayat-election.spec.js:90-99 | after two votes for C1, its row shows 2 |
| PanchayatElection.ResultsByNameScenario | Javascript/js-functions/tests/12-panchayat-election.spec.js:101-109 | sorted by name, Mukhiya Gita comes first |
| PanchayatElection.ResultsByVotesScenario | Javascript/js-functions/tests/12-panchayat-election.spec.js:111-122 | by default, C2 with 2 votes comes first |
| PanchayatElection.NoWinnerScenario | Javascript/js-functions/tests/12-panchayat-election.spec.js:137-139 | no votes, no winner |
| PanchayatElection.WinnerScenario | Javascript/js-functions/tests/12-panchayat-election.spec.js:126-135 | the winner is C1, Sarpanch Ram |
| PanchayatElection.Vote | Javascript/js-functions/tests/12-panchayat-election.spec.js:39-47 | a permitted vote marks the voter as voted and raises exactly the chosen candidate's count by one |
| WhatsAppParser.SentimentOf | Javascript/js-datatypes/src/06-whatsapp-parser.js:17-21 | funny iff the lower-cased text mentions a funny marker; love iff not funny and it mentions a love marker; neutral otherwise |
| WhatsAppParser.Cut | Javascript/js-datatypes/src/06-whatsapp-parser.js:12-15 | None iff the marker does not occur; otherwise the text before its first occurrence and the text after it |
| WhatsAppParser.SplitHeader | Javascript/js-datatypes/src/06-whatsapp-parser.js:12-13 | date and time are the header around its first ", ": the date contains no ", ", and without one the whole header is the date and the time is "" |
| WhatsAppParser.ParseWhatsAppMessage | Javascript/js-datatypes/src/06-whatsapp-parser.js:12-27 | None for a missing line or one without " - "; otherwise the text is trimmed, the word count is its number of words and the sentiment is its classification |
| WhatsAppParser.ParsedLineShape | Javascript/js-datatypes/src/06-whatsapp-parser.js:12-15 | a parsed line is header + " - " + sender + ": " + rest, with header at the first " - ", sender up to the first ": ", date and time split from the header, and text the trimmed rest |
| WhatsAppParser.ParseOfFormatted | Javascript/js-datatypes/src/06-whatsapp-parser.js:8-15 | a line built in the export format parses back to its date, time, sender and trimmed text |
| WhatsAppParser.ParseOfParts | Javascript/js-datatypes/src/06-whatsapp-parser.js:8-21 | a formatted line whose text is made of the given words parses to exactly that record |
| WhatsAppParser.WordsAreWords | Javascript/js-datatypes/src/06-whatsapp-parser.js:16 | every counted word is non-empty and has no space |
| WhatsAppParser.WordsAround | Javascript/js-datatypes/src/06-whatsapp-parser.js:16 | the words around a space are the words of both sides |
| WhatsAppParser.WordsOfJoin | Javascript/js-datatypes/src/06-whatsapp-parser.js:16 | words joined by single spaces split back into the same words |
| WhatsAppParser.WordsOfWord | Javascript/js-datatypes/src/06-whatsapp-parser.js:16 | a single word without spaces counts as one word |
| WhatsAppParser.WordsOfEmpty | Javascript/js-datatypes/src/06-whatsapp-parser.js:16 | the empty text has no words |
| Text.JoinSplit | Javascript/js-datatypes/src/06-whatsapp-parser.js:16 | joining the pieces of a split with the separator gives back the string |
| Text.SplitAround | Javascript/js-datatypes/src/06-whatsapp-parser.js:16 | splitting around one separator is splitting each side |
| WhatsAppParser.RahulExample | Javascript/js-datatypes/src/06-whatsapp-parser.js:33-35 | the first example line parses to its date, time, sender, text, 5 words and funny |
| WhatsAppParser.PriyaExample | Javascript/js-datatypes/src/06-whatsapp-parser.js:37-39 | the second example line parses to its date, time, sender, text, 4 words and love |
| WhatsAppParser.RahulSentiment | Javascript/js-datatypes/src/06-whatsapp-parser.js:18 | a laughing emoji makes the text funny |
| WhatsAppParser.PriyaSentiment | Javascript/js-datatypes/src/06-whatsapp-parser.js:19 | "love" without a funny marker makes the text love |
| WhatsAppParser.MissingDashExample | Javascript/js-datatypes/src/06-whatsapp-parser.js:27 | a line without " - " is rejected |
| Text.IndexOf | Javascript/js-datatypes/src/06-whatsapp-parser.js:22 | the first position where the marker occurs, or None iff it never occurs |
| Text.Trim | Javascript/js-datatypes-foundation/src/01-chai-order.js:13-16 | the trimmed string has no surrounding spaces and is no longer than the input |
| Text.TrimOfPadded | Javascript/js-datatypes-foundation/src/01-chai-order.js:13-16 | trimming a string padded with spaces gives back the unpadded middle |
| Text.TrimEmptyIffAllSpace | Javascript/js-datatypes-foundation/src/01-chai-order.js:18-22 | the trim is empty iff the string is all spaces |
| Text.TrimIdempotent | Javascript/js-datatypes-foundation/src/01-chai-order.js:13-16 | trimming twice is trimming once |
| Text.ToUpperFacts | Javascript/js-datatypes-foundation/src/01-chai-order.js:18-22 | upper-casing gives an upper-case string equal to the input ignoring case |
| Text.ToLowerFacts | Javascript/js-datatypes-foundation/src/01-chai-order.js:24-28 | lower-casing gives a lower-case string equal to the input ignoring case |
| ChaiOrder.GetChaiOrderLength | Javascript/js-datatypes-foundation/src/01-chai-order.js:13-16 | -1 iff the order is not a string; otherwise between 0 and the length, and 0 iff the order is all spaces |
| ChaiOrder.ShoutChaiOrder | Javascript/js-datatypes-foundation/src/01-chai-order.js:18-22 | "" iff the order is missing or blank; otherwise an upper-case, unpadded string equal to the trimmed order ignoring case |
| ChaiOrder.WhisperChaiOrder | Javascript/js-datatypes-foundation/src/01-chai-order.js:24-28 | "" iff the order is missing or blank; otherwise a lower-case, unpadded string equal to the trimmed order ignoring case |
| ChaiOrder.HasSpecialIngredient | Javascript/js-datatypes-foundation/src/01-chai-order.js:30-34 | true iff both are strings and the lower-cased ingredient occurs in the lower-cased order |
| ChaiOrder.GetFirstAndLastChar | Javascript/js-datatypes-foundation/src/01-chai-order.js:36-41 | None iff the order is missing or blank; otherwise two non-space characters |
| ChaiOrder.LengthOfPadded | Javascript/js-datatypes-foundation/src/01-chai-order.js:13-16 | a padded order's length is its unpadded middle's |
| ChaiOrder.ShoutOfPadded | Javascript/js-datatypes-foundation/src/01-chai-order.js:18-22 | a padded order shouts as its upper-cased middle |
| ChaiOrder.WhisperOfPadded | Javascript/js-datatypes-foundation/src/01-chai-order.js:24-28 | a padded order whispers as its lower-cased middle |
| ChaiOrder.FirstAndLastOfPadded | Javascript/js-datatypes-foundation/src/01-chai-order.js:36-41 | a padded order gives the first and last characters of its middle |
| ChaiOrder.ChaiOrderLengthExample | Javascript/js-datatypes-foundation/src/01-chai-order.js:13-16 | "  masala chai  " has length 11 |
| ChaiOrder.ShoutChaiOrderExample | Javascript/js-datatypes-foundation/src/01-chai-order.js:18-22 | "masala chai" shouts as "MASALA CHAI" |
| ChaiOrder.WhisperChaiOrderExample | Javascript/js-datatypes-foundation/src/01-chai-order.js:24-28 | "ADRAK CHAI" whispers as "adrak chai" |
| ChaiOrder.FirstAndLastExample | Javascript/js-datatypes-foundation/src/01-chai-order.js:36-41 | "masala chai" gives 'm' and 'i' |
| ChaiOrder.SpecialIngredientExample | Javascript/js-datatypes-foundation/src/01-chai-order.js:30-34 | "elaichi" is found in "Elaichi Masala Chai" |
| PostcardWriter.WritePostcard | Javascript/js-datatypes-foundation/src/09-postcard-writer.js:13-18 | "" iff some part is missing or blank; otherwise it starts with the greeting to the receiver, ends with the sign-off and the sender, contains the message after the greeting, and has the template's length |
| PostcardWriter.WritePostcardOfUnpadded | Javascript/js-datatypes-foundation/src/09-postcard-writer.js:13-18 | for unpadded, non-empty parts the postcard is exactly the template |
| PostcardWriter.WritePostcardExample | Javascript/js-datatypes-foundation/src/09-postcard-writer.js:13-18 | the postcard from Guddu to Dadi ji |
| PostcardWriter.IsValidPincode | Javascript/js-datatypes-foundation/src/09-postcard-writer.js:20-27 | a valid pincode is a 6-character string of digits not starting with '0' |
| PostcardWriter.PincodeIsSixDigitNumber | Javascript/js-datatypes-foundation/src/09-postcard-writer.js:20-27 | a pincode is valid iff it is the decimal text of a number from 100000 to 999999 |
| PostcardWriter.PincodeExamples | Javascript/js-datatypes-foundation/src/09-postcard-writer.js:20-27 | "400001" is valid; "012345" and a non-string are not |
| PostcardWriter.PadEnd | Javascript/js-datatypes-foundation/src/09-postcard-writer.js:29-35 | the string followed by spaces, up to the width |
| PostcardWriter.FormatPostcardField | Javascript/js-datatypes-foundation/src/09-postcard-writer.js:29-35 | "" iff the label or the value is missing; otherwise the label padded with spaces to the width (default 12), then ": " and the value |
| PostcardWriter.FormatPostcardFieldExamples | Javascript/js-datatypes-foundation/src/09-postcard-writer.js:29-35 | "From" at the default width and "To" at width 8 |
| PostcardWriter.IsFromState | Javascript/js-datatypes-foundation/src/09-postcard-writer.js:37-41 | true iff both are strings and the address ends with the state code |
| PostcardWriter.IsFromStateExamples | Javascript/js-datatypes-foundation/src/09-postcard-writer.js:37-41 | a Lucknow address is from UP; a Mumbai address is not |
| PostcardWriter.CountVowels | Javascript/js-datatypes-foundation/src/09-postcard-writer.js:43-47 | 0 for a non-string; otherwise at most the length, and 0 iff no character is a vowel |
| PostcardWriter.VowelsBounds | Javascript/js-datatypes-foundation/src/09-postcard-writer.js:43-47 | the vowel count is at most the length, and 0 iff no character is a vowel |
| PostcardWriter.CountVowelsAppend | Javascript/js-datatypes-foundation/src/09-postcard-writer.js:43-47 | the vowels of a concatenation are the vowels of the parts |
| PostcardWriter.CountVowelsIgnoresCase | Javascript/js-datatypes-foundation/src/09-postcard-writer.js:43-47 | upper- or lower-casing the message does not change its vowel count |
| PostcardWriter.CountVowelsExamples | Javascript/js-datatypes-foundation/src/09-postcard-writer.js:43-47 | "Namaste India" has 6 vowels and "Namaste" has 3 |
| Text.DigitsValueOfNatToString | Javascript/js-datatypes-foundation/src/09-postcard-writer.js:20-27 | reading back the decimal text of a number gives the number |
| Text.NatToStringOfDigitsValue | Javascript/js-datatypes-foundation/src/09-postcard-writer.js:20-27 | writing the value of a canonical digit string gives the string |

## Left out

- The cricket-stats exercise is left out. It is floating-point division rounded to two decimals.
- The rickshaw-meter exercise is left out. It depends on `parseFloat`, `toFixed` and `Math.ceil` of float products.
- `createRatingCalculator` is left out. It uses float weights and one-decimal rounding.
- There is no source for dosa, tiffin, dabbawala, dhaba, holi, masala, festival and election. Their behaviour is taken from their spec files alone. Where those files leave behaviour open, the choices are listed below.
- BollywoodDirector.Price: prices are exact rationals rounded half up. IEEE double rounding at `.5` boundaries is not modelled.
- DabbawalaTracker.Dabbawala.GetStats:
  - the success rate is whole hundredths of a percent, rounded half up, written as digits, "." and two digits;
  - `toFixed`'s binary-float rounding is not modelled.
- MehndiPattern.SumNestedArray: numbers are exact reals, so the rounding of binary floating-point addition is not modelled.
- HoliColors.AdjustBrightness: channels are rounded to the nearest integer, half up. Float behaviour for a factor such as 1.5 at `.5` boundaries is not modelled.
- JavaScript dynamic typing is at the boundary only:
  - `typeof`, `Array.isArray`, and the difference between `null`, `undefined` and a value of the wrong type all become `None`;
  - coercion is not modelled.
- Text handling is ASCII only:
  - whitespace is the ASCII space, tab, line feed, carriage return, vertical tab and form feed; Unicode spaces are not trimmed;
  - case mapping covers A-Z only;
  - string order is plain lexicographic order on characters in place of `localeCompare`;
  - emoji are single characters.
- Callback side effects are not modelled. This covers call counters and flags set inside test callbacks, and "the callback was called" checks.
- The "does not mutate its input" tests are not modelled separately, because every pure operation is a function on immutable values.
- The encapsulation tests for private `deliveries`, `nextId` and `festivals` are not modelled. Class fields here are visible to proofs, and no caller reaches them.
- PanchayatElection.Election.CastVote:
  - the error texts "not_registered", "invalid_candidate" and "already_voted" are chosen here, because the tests only require a string;
  - the check order (registration, then candidate, then double vote) is also a choice.
- PanchayatElection.Validate: the reason texts are chosen here. The age is checked only when it is numeric; a non-numeric age passes, like a JavaScript `<` on `NaN`.
- PanchayatElection.Election.RegisterVoter:
  - a voter needs a non-empty string id and a numeric age of at least 18;
  - other fields are not checked.
- PanchayatElection.Election.GetResults: a supplied comparator is a "comes no later than" relation, not a three-way number. The sort is stable insertion sort, so ties keep candidate order.
- PanchayatElection.Election.GetWinner: ties go to the first candidate in the default ranking.
- The election keeps a ghost history of ballots. Proofs use it to tie the tally to real votes; the source has no such field.
- FestivalPlanner.FestivalManager.GetUpcoming:
  - dates are compared as strings, which orders `YYYY-MM-DD` dates correctly, and they are not validated;
  - a negative n gives [];
  - JavaScript `slice` with a negative end is not modelled.
- FestivalPlanner.FestivalManager.AddFestival: the date is stored as given and is not validated.
- WhatsAppParser.ParseWhatsAppMessage:
  - ", " is looked for only inside the header before " - "; without it, the whole header is the date and the time is "";
  - a line with " - " but no ": " after the sender is rejected. Its contract states the missing-" - " case directly. The missing-": " case is stated through ParsedLineShape, which shows any accepted line has a sender followed by ": ".
- MasalaBlender.CreateRecipe:
  - a recipe is a function from object to object;
  - `pipe` and `compose` are modelled as function application over a list of same-typed functions;
  - variadic arguments become a list.
- The "filter then map" case of `transformGuestList` is not modelled: it changes the element type midway, and the model keeps one element type throughout.
- A guest record holds only name, side and rsvp.
- DhabaRating.SortBySorter:
  - sorters are "no later than" relations;
  - an item without the field sorts last in ascending order, and so first under "desc";
  - a number sorts before a string and a string before a boolean.
- Dosa, tiffin and pricing numbers are integers. The spec files use whole rupees only.
- The Jest test runner (`describe`, `test`, `expect`, `beforeEach`) is not modelled. Each test's sequence of calls becomes an example lemma or a scenario method.
