# Travel itinerary store — a Dafny model

This project models the core of a browser travel planner (`script.js`). The
page keeps one global array `destinations` of `{name, date, time}` records.
It has three operations on that array:

- `addDestination` runs a five-step validation chain. It then pushes the
  record, with the time defaulting to `12:00`, and re-sorts the whole array
  by date and then time.
- `removeDestination` deletes one entry with `splice(index, 1)`.
- The render passes `updateDisplay` and `updateMap` rebuild three views from
  the array: a numbered list, a timeline and a route map.

A small `rate(stars)` function builds an acknowledgement message.

Modules, one per concern of the script:

- `Lex` (lex.dfy): comparing date and time strings. It has a three-way comparison
  `Compare`, proved equal to the textbook definition of lexicographic order,
  antisymmetric and transitive.
- `Order` (order.dfy): the `Destination` record and the sort comparator `Cmp`
  (date first, time on equal dates).
  - `Insert`, in a sorted array, places a record after every record that is
    not greater than it.
  - `StableSort` models the engine's stable `Array.prototype.sort`. It is
    proved sorted, a permutation of its input, and stable (records with equal
    date and time keep their relative order).
  - On a sorted array plus one pushed record, `StableSort` is proved equal to
    `Insert`.
- `Validation` (validation.dfy): the validation chain, as a function that
  returns the first failed check. `Validate`'s contract and the lemma
  `FirstViolationWins` relate it to a reference list of all violated checks.
  Further lemmas give the exact condition for acceptance and show that every
  bound is inclusive.
- `Store` (store.dfy): the class `Itinerary` with the mutable `destinations`
  field.
  - `AddDestination` and `RemoveDestination` keep the array sorted. Their
    ensures state the whole new state.
  - `splice` is modelled with ECMAScript's rule for where the deletion starts.
  - Three small methods run `AddDestination` on fixed inputs: same-day stops
    ordered by time, the date deciding before the time, and two stops with the
    same date and time kept in the order they were added.
- `Views` (views.dfy): the render loops as methods. Each method is proved equal
  to a specification function that builds structured records (list entries,
  timeline items, route points and connectors). Lemmas about those functions
  prove the numbering, the empty-state behaviour, the point and connector
  counts, and the renumbering after a removal.
- `Rating` (rating.dfy): the rating message with its plural rule. The number
  is written in decimal, and a lemma proves that this decimal text reads back
  as the rating.

Nothing reads a clock or the page. `today`, `maxDate` (today plus one year),
the trip end date, and the trip name and dates shown in the list are
parameters. So is the footer's generation date.

Facts about what script.js does, which the model follows:

- The name is not trimmed. `!destination` at script.js:35 rejects only the
  empty string, so `" "` is accepted.
- The date is not checked for format. `!date` at script.js:41 rejects only the
  empty string; any other string goes on to the string comparisons.
- `splice(index, 1)` at script.js:198 does nothing for an index at or past the
  end. A negative index counts from the end, so `-1` removes the last entry,
  and one reaching before the start removes the first (`Store.SpliceRemoves`).
- Records with the same date and time are never reordered by the stable sort,
  so they stay in the order they were added. Adding two such records in the
  other order gives a different array (`Store.SameKeyKeepsAdditionOrder`,
  `Store.SameKeyScenario`). Only records whose (date, time) differ can be
  added in either order with the same result (`Order.InsertCommutes`).
- The upper bound "one year from today" is whatever `maxDate` the caller
  computes. The model does no calendar arithmetic.

## Model

| member | source | states |
|---|---|---|
| `Lex.Compare` | script.js:82-84 | three-way string comparison with results in {-1, 0, 1}, as `localeCompare` returns for the fixed-width digit strings used |
| `Lex.Less` | script.js:55-67 | JavaScript's `<` on the date strings holds exactly when the reference lexicographic order holds: a proper prefix, or the first differing character is smaller |
| `Lex.CompareIsLexicographic` | script.js:55-67 | `Compare(a, b) < 0` holds exactly when `a` is a proper prefix of `b` or the first differing character of `a` is smaller: the order of JavaScript's `<` on strings |
| `Lex.CompareZero` | script.js:81-84 | two strings compare equal exactly when they are the same string |
| `Lex.CompareFlip` | script.js:82-84 | swapping the arguments negates the comparison |
| `Lex.CompareTrans` | script.js:82-84 | the order is transitive, and strict when either step is strict |
| `Order.Cmp` | script.js:80-85 | the comparator returns 0 exactly when date and time are both equal |
| `Order.CmpFlip` | script.js:80-85 | the comparator is antisymmetric |
| `Order.CmpTrans` | script.js:80-85 | the comparator is transitive (a total preorder on records) |
| `Order.Insert` | script.js:73-85 | the array grows by exactly one entry and holds the new record |
| `Order.InsertSplits` | script.js:73-85 | in a sorted array the new record lands at a position k, after every record with a smaller or equal (date, time) and before every greater one |
| `Order.InsertPermutes` | script.js:73-77 | inserting adds exactly the one new record to the multiset |
| `Order.InsertSorted` | script.js:80-85 | inserting into a sorted array keeps it sorted by (date, time) |
| `Order.InsertLast` | script.js:73-85 | a record not smaller than any existing one ends up last, as pushed |
| `Order.InsertStable` | script.js:80-85 | the records of each (date, time) keep their order; the new one comes after those with its key |
| `Order.StableSort` | script.js:80-85 | the sorted array is ordered by (date, time) and is a permutation of the input |
| `Order.StableSortStable` | script.js:80-85 | the sort is stable: per (date, time) the records keep their input order |
| `Order.StableSortOfSorted` | script.js:80-85 | sorting an already sorted array changes nothing |
| `Order.PushThenSort` | script.js:73-85 | push followed by a full re-sort of a sorted array equals inserting the record after all records not greater than it |
| `Order.InsertCommutes` | script.js:73-85 | two records with different (date, time) give the same array whichever is added first |
| `Validation.TimeOrDefault` | script.js:76 | an empty time is stored as "12:00"; an entered time is stored as it is; the stored time is never empty |
| `Validation.Validate` | script.js:35-70 | an entry is accepted exactly when it violates none of the five checks, and a refusal names one of the checks it violates |
| `Validation.FirstViolationWins` | script.js:35-70 | the verdict is the first violated check in the fixed order (name, date, past, too far, after trip end), and acceptance exactly when none is violated |
| `Validation.RejectionReasons` | script.js:35-70 | each reason is reported exactly when its own check fails and every earlier check passes |
| `Validation.AcceptedIff` | script.js:55-70 | an entry is accepted exactly when name and date are non-empty, today <= date <= maxDate, and date <= endDate when an end date is set |
| `Validation.BoundariesInclusive` | script.js:55-67 | a date equal to today, to maxDate or to a set end date is accepted; an empty end date imposes no bound |
| `Store.RemoveAt` | script.js:198 | deleting an existing position leaves one fewer entry and the multiset without exactly that entry; deleting at the length changes nothing |
| `Store.RemoveAtDeletesOne` | script.js:198 | deleting index i gives one fewer entry; entries before i stay, later ones shift down by one, and the multiset loses exactly that entry |
| `Store.RemoveAtSorted` | script.js:198 | deleting an entry keeps the array sorted |
| `Store.SpliceRemoves` | script.js:198 | an index the page renders (0 <= i < n) yields `s[..i] + s[i+1..]`; an index at or past the end changes nothing; a negative index -m removes the entry m places from the end (-1 the last), and one before the start removes the first |
| `Store.Itinerary.constructor` | script.js:2 | a session starts with an empty, sorted itinerary |
| `Store.Itinerary.AddDestination` | script.js:27-94 | on a failed check the array is unchanged and the reason is the first failed check; on success the record with the defaulted time ("12:00" for an empty time) is inserted and the array stays sorted |
| `Store.Itinerary.RemoveDestination` | script.js:195-202 | the array becomes the old array with the entry at splice's start position deleted, and stays sorted |
| `Store.AddedShape` | script.js:73-85 | after a successful add: length n + 1, a permutation of the old array plus the record, sorted, the record placed after every record not greater than it |
| `Store.InsertionOrderIrrelevant` | script.js:80-85 | adding two records in either order gives the same multiset, sorted both ways, and the same array when their (date, time) differ |
| `Store.SameKeyKeepsAdditionOrder` | script.js:73-85 | records with the same date and time end up in the order they were added, so two different such records added in the other order give a different array |
| `Store.SameDayScenario` | script.js:80-85 | Paris at 09:00 then Rome at 08:00 on the same day yields [Rome, Paris] |
| `Store.DateFirstScenario` | script.js:73-85 | A on 2025-07-01 with no time, then B on 2025-06-01 at 10:00, yields [B, A], with A stored at 12:00 |
| `Store.SameKeyScenario` | script.js:73-85 | Paris then Rome, both on the same day at 09:00, yields Paris first and Rome second, with equal (date, time) |
| `Views.RenderList` | script.js:103-134 | the list view carries the trip name (or the default title), the From/To texts only when those dates are set, total n, entries numbered 1..n in array order with their removal index, and the notice "No destinations added yet" exactly when n = 0 |
| `Views.RenderTimeline` | script.js:148-156 | the timeline is exactly one "Stop k" item per destination in array order |
| `Views.RenderMap` | script.js:163-192 | the map view is the placeholder when there are no destinations, and otherwise the alternating point/connector route |
| `Views.ListAndTimelineShape` | script.js:116-154 | list positions and timeline stops both run 1..n and show each record's name, date and time; the timeline is empty exactly when n = 0 |
| `Views.MapShape` | script.js:168-188 | the placeholder appears exactly when n = 0; otherwise there are n route points and n - 1 connectors |
| `Views.RouteLayout` | script.js:177-187 | route point k + 1 is at position 2k, a connector sits between each consecutive pair, and the last token is the last point |
| `Views.AlternatingCounts` | script.js:177-187 | a prefix of length m of an alternating point/connector sequence has (m + 1) / 2 points and m / 2 connectors |
| `Views.RemoveThenRender` | script.js:120-129 | after removing index i the list omits exactly that entry: earlier entries are unchanged, later ones move up one, and the positions run 1..n-1 |
| `Rating.IntToDecimal` | script.js:207 | `${stars}` for a whole number written in plain decimal (below 10^21 in magnitude in JavaScript): it starts with a minus sign exactly for a negative rating; the digits after it are non-empty, have no leading zero unless the rating is 0, and read back as the rating's absolute value |
| `Rating.RateMessage` | script.js:207 | the message starts with "Thank you for rating " and ends with "!" |
| `Rating.NatToDecimal` | script.js:207 | the rendered number is a non-empty string of digits without a leading zero |
| `Rating.DecimalRoundTrip` | script.js:207 | the decimal digits read back as the number |
| `Rating.PluralExactlyAboveOne` | script.js:207 | the message ends in "stars!" exactly when stars > 1, and in " star!" otherwise, with no range check |
| `Rating.MessageShowsStars` | script.js:207 | for ratings written in plain decimal (below 10^21 in magnitude in JavaScript), the message is the fixed prefix, non-empty digits without a leading zero (except for 0) that read back as the rating, and the singular or plural ending; a negative rating is shown with a minus sign, such digits for its absolute value, and " star!" |
| `Rating.RateExamples` | script.js:207 | rate(1) says "1 star!", rate(3) says "3 stars!" |

## Left out

- Page access (`getElementById`, `querySelector`, `innerHTML`, `textContent`, `alert`, clearing the input fields at script.js:91-93). A refusal is an `AddResult.Refused` value instead of a notice, and a view is a returned value instead of replaced page content.
- The `DOMContentLoaded` handler (script.js:5-24). It sets the date pickers' minimum and guards the trip start date. It is page wiring and does not touch `destinations`.
- Reading the clock: `today` and `maxDate` (script.js:47-52) are parameters. The UTC conversion in `toISOString` and the leap-day behaviour of `setFullYear` are not modelled. The footer's `toLocaleDateString()` (script.js:140) is the `generatedOn` parameter.
- HTML markup, CSS classes and the fixed footer credit line (script.js:108-142, 150-153, 174-188). Each view is structured records instead.
- `Lex.Compare`: does not model `localeCompare` collation in general, nor UTF-16 code units. It compares characters by code point, which agrees with both on the ASCII digit strings that date and time inputs produce.
- `Store.Itinerary.RemoveDestination`: does not model non-integer or non-numeric indices, which `splice` would truncate or coerce. The page passes only the integer indices it rendered.
- `Rating.RateMessage`: covers whole-number ratings only. JavaScript's formatting of fractional or non-finite numbers is not modelled. The page passes only 1 to 5.
- `Rating.IntToDecimal`: writes plain decimal digits for every integer. JavaScript writes numbers of magnitude 10^21 and above in exponent form (`${1e21}` is "1e+21") and holds integers exactly only up to 2^53. The page passes only 1 to 5.
- `Rating.MessageShowsStars`: states plain decimal digits in the message for every integer, which `${stars}` gives only below 10^21 in magnitude (exponent form above that, no exact integers past 2^53). The page passes only 1 to 5.
- The re-render after each mutation (script.js:88, script.js:201). The render passes are functions of the array, taken by value. Calling them after `AddDestination` and `RemoveDestination` is up to the caller.
- Re-validating stored records when the trip end date changes later. script.js does not do it: records are checked only when they are added.
