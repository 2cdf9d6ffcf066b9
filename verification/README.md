# Padel matches page — a Dafny model

This project models the page of the padel-matches frontend (`app/page.tsx`).
The page loads the match list once from the matches API, groups the matches by
tournament, date and court, and renders one card per group with one card per
match inside it. There are three parts:

- **Grouping** (`grouping.dfy`) models `groupMatches`. It makes one pass over
  the list and files each match under the key `${torneo.id}-${fecha}-${cancha}`
  in an insertion-ordered map:
  - The first match seen with a key creates that key's bucket, and the bucket
    takes its header (tournament, date, court) from that match.
  - The result is the map's values, in the order their keys were inserted.

  The loop works on two values: a sequence of keys (the map's insertion order)
  and a `map` from key to bucket. It is proved equal to a declarative
  specification:
  - `KeysInOrder` gives the distinct keys in order of first occurrence.
  - `WithKey` gives the matches that carry a key, in input order.

  Everything about the grouping is stated for any key function. It therefore
  holds for the page's own key `Key`, which is a real string concatenation.
- **Load lifecycle** (`pageload.dfy`) models `fetchMatches`. The three `useState`
  variables are fields of a class `Page`, and the setters update them in place.
  Two things are parameters (`FetchOutcome`):
  - the request's result: either a rejected promise, or a response with a status and a body;
  - the body's parse: it either yields the list or throws.

  Pure functions state the page's state after the try, catch and finally
  blocks. The methods are proved against them.
- **Rendering** (`render.dfy`, `timeformat.dfy`) models what the component
  returns for a state:
  - the spinner while loading;
  - otherwise the error panel when `error` is truthy;
  - otherwise the grouped list.

  A view keeps the values the markup shows, without the markup.
  `extractHour` takes the JavaScript date runtime as a parameter.

`text.dfy` gives the decimal text of integers as a template literal prints
them, and reads it back, negative integers included, also when the text is
followed by the key's '-' separator. `domain.dfy` holds the records the API returns.
`wrappers.dfy` holds `Option` and `Result`.

Points where the model follows the code closely:
- The page keeps three independent pieces of state, not a single tagged
  lifecycle value.
- A failed load leaves `matches` as it was.
- The HTTP error text is `HTTP error! status: <code>`.
- `if (error)` tests JavaScript truthiness, so an empty error string would
  show the list. The catch block never stores an empty message
  (`CatchMessage`), so this cannot happen after a load.

## Model

| member | source | states |
|---|---|---|
| Grouping.WithKey | app/page.tsx:66-75 | The matches filed under key k all carry k, and none is filed under k exactly when no input match carries k |
| Grouping.KeysInOrder | app/page.tsx:65-77 | The map's keys are pairwise distinct, and a key is in the map exactly when some input match carries it |
| Grouping.FirstIndex | app/page.tsx:67-74 | The position at which a key's bucket is created: the first input match that carries the key, with no earlier match carrying it |
| Grouping.Grouped | app/page.tsx:64-80 | No bucket in the result is empty, because a bucket is only created for a match that is pushed into it at once |
| Grouping.FileMatch | app/page.tsx:65-77 | One call of the reduce callback (create the bucket if the key is new, then push) turns the map built from the matches seen so far into the map built from those matches plus this one |
| Grouping.Values | app/page.tsx:79 | `Array.from(map.values())` yields one value per key, in key insertion order |
| Grouping.GroupMatches | app/page.tsx:64-80 | The reduce over the list followed by reading the map's values returns exactly the specified grouping: keys in order of first occurrence, each bucket holding that key's matches in input order |
| Grouping.GroupingIsPermutation | app/page.tsx:64-80 | No match is lost or duplicated: the buckets' matches, concatenated, are a permutation of the input and have its length |
| Grouping.GroupedEmptyIff | app/page.tsx:64-80 | The result is empty exactly when the input list is empty |
| Grouping.BucketKeys | app/page.tsx:66-75 | Every match of a bucket has the key of the bucket's first match; no two buckets share a key; a bucket's tournament, date and court are those of its first match |
| Grouping.HeaderSpellsKey | app/page.tsx:66-73 | With the page's key, the header of every bucket spells the key of each match in it |
| Grouping.FirstSeenOrder | app/page.tsx:65-79 | Buckets come out in the order in which their keys first occur in the input |
| Grouping.HeaderFromFirstMatch | app/page.tsx:67-75 | BucketOf: a bucket is created with the tournament, date and court of the first input match with its key, and that match is the first one pushed into it |
| Grouping.WithKeyPositions | app/page.tsx:75 | The matches pushed under a key sit at increasing input positions, and these are exactly the positions of the input matches with that key |
| Grouping.BucketPositions | app/page.tsx:75 | Each bucket holds exactly the input matches with its key, in input order, each at an increasing input position |
| Grouping.SameKeyOneBucket | app/page.tsx:66-75 | Two matches with the same key form one bucket, headed by the first and holding both in arrival order |
| Grouping.KeysCollide | app/page.tsx:66 | Tournament 1 with (date, court) ("a-b", "c") and ("a", "b-c") both spell the key "1-a-b-c" |
| Grouping.KeyCollision | app/page.tsx:66-75 | Those two matches share one bucket whose date is the first match's, so the bucket's header disagrees with the second match |
| Grouping.KeyNamesTournament | app/page.tsx:66 | Key and KeyOf: the key begins with the text of the tournament id, and reading the integer at its start gives the id back, whatever the date and court hold |
| Grouping.BucketTournament | app/page.tsx:66-75 | Keys can collide only within one tournament: every match of a bucket belongs to the bucket's tournament |
| Text.IntToStringRoundTrip | app/page.tsx:66 | IntToString: the text `${torneo.id}` of any integer id, negative ones included, reads back as the id |
| Text.LeadingIntOfIntToString | app/page.tsx:66 | The id's text followed by the '-' separator still reads back as the id, because the separator cannot be taken for part of the number |
| PageLoad.Attempt | app/page.tsx:95-104 | The try block succeeds exactly when the response is ok and its body parses, yielding the parsed list. A rejected fetch or a body that fails to parse reaches the catch with what was thrown |
| Text.NatToString | app/page.tsx:99 | The decimal text of a number in a template literal is a non-empty string of digits without a leading zero |
| Text.DigitsValueOfNatToString | app/page.tsx:99 | Reading the decimal text of a number back gives the number |
| TimeFormat.ExtractHour | app/page.tsx:46-53 | A string the runtime cannot parse as a date is returned unchanged |
| PageLoad.CatchMessage | app/page.tsx:105-111 | An Error's message is stored after the prefix "Error al cargar los partidos: "; any other thrown value stores the generic text; the message is never empty |
| PageLoad.Page.constructor | app/page.tsx:83-85 | The page starts with no matches, loading on, and no error |
| PageLoad.Page.Begin | app/page.tsx:90-92 | Entering the try block sets loading and clears the error, leaving the matches unchanged |
| PageLoad.Page.Complete | app/page.tsx:95-115 | After the try/catch/finally: loading is off; a successful load stores the parsed list; a failure stores the catch message and keeps the old list |
| PageLoad.Page.FetchMatches | app/page.tsx:88-116 | One whole load leaves the state given by the try, catch and finally blocks applied to the state at its start |
| PageLoad.LoadOutcomes | app/page.tsx:90-115 | Settled (the state after the try, catch and finally blocks) for every outcome: loading ends off. The error is absent exactly when the status is ok (IsOk: 200 to 299) and the body parses, and then the list is the parsed data. A non-ok status stores "Error al cargar los partidos: HTTP error! status: <code>". A rejection or a parse failure stores that failure's catch message. Every failure keeps the old list |
| PageLoad.HttpErrorNamesStatus | app/page.tsx:98-108 | For a non-ok status, the stored error message names that status, which can be read back from the text |
| Render.Render | app/page.tsx:123-142 | The spinner is shown exactly while loading. Otherwise the error panel is shown exactly when the error is truthy (ErrorShown: present and non-empty), and it shows the stored text. Otherwise the list is shown, with one card per group |
| Render.ListShowsEveryMatchOnce | app/page.tsx:142-181 | When the list is shown, the match cards across all group cards are a permutation of the fetched matches |
| Render.ListCards | app/page.tsx:148-169 | RenderGroup and RenderRow: the i-th group card shows the i-th bucket's tournament name, date and court, and the start time of its first match. It has one card per match, in bucket order. A match card shows the Buenos Aires time exactly when the status is not "Completed" |
| Render.ViewAcrossLoad | app/page.tsx:83-142 | The first render shows the spinner, and so does the render after Started (the start of the try block sets loading and clears the error). After the load, the list is shown exactly when the load succeeded; otherwise the error panel shows the caught failure's message |

## Left out

- TimeFormat.ExtractHour: only the pass-through for invalid dates is stated. Parsing a date string and formatting a time for the `es-AR` locale are runtime behaviour, so they are the parameters `parse` and `localeTime`.
- Grouping.GroupMatches: the map is modelled as a key sequence plus a `map` value rather than a mutable JavaScript `Map`, and each bucket's array as a sequence. Pushing onto a bucket therefore updates the map entry rather than an aliased array.
- Key: `${torneo.id}` is modelled for integral ids only. The decimal text of fractional or very large JavaScript numbers is not modelled.
- The network request: the API URL (from `NEXT_PUBLIC_API_URL` or the local default), `fetch` and `response.json()` are replaced by the outcome parameter. The JSON body is taken to be a list of matches. The API's shape is not validated, as in the code.
- React's own behaviour is not modelled: effect scheduling, re-rendering, state updates that arrive after unmount, and the single run of the effect.
- Logging: the `console.log` and `console.error` calls are diagnostic only.
- Markup: class names, icons and the `TeamDisplay` component (player names and set scores) are left out. A match card keeps its match, from which the round, teams, sets and status are shown.
- lib/ga.ts (analytics) is not part of this model.
