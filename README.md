# Flashcard app: validation, paging, study navigation and SQL shaping in Dafny

This project models the core logic of a small Express/PostgreSQL flashcard
application. The HTTP and database glue around it is not modelled. It has
two parts.

- **The controller's decisions** (`controllers/flashcardController.js`):
  - the messages a submitted card earns from `validateFlashcardInput`;
  - the page count and the previous/next links of the listing;
  - the wrap-around index of the study view, and its redirect when there
    is nothing to study;
  - the `parseInt(...) || 1` default of the difficulty;
  - the key/value pairs a rejected form is redirected with;
  - the statement a valid create or update submission leads to.
- **The model's statements** (`models/flashcardModel.js`):
  - the parameterised SQL that `fetchAllFlashcards`,
    `getTotalFlashcardsCount` and `getFlashcardsForStudy` build step by step;
  - the argument normalisation of `createFlashcard`, `modifyFlashcard` and
    `removeFlashcard`.

Modules, one per file:

- `Outcomes`: `Option` and `Result`.
  - `None` stands for an absent form or query field (`undefined`).
  - `Failure` stands for a thrown error.
- `JsText`: the JavaScript string primitives the code relies on.
  - `trim` strips the ECMAScript WhiteSpace and LineTerminator characters.
  - `.length` counts UTF-16 code units: a character outside the Basic
    Multilingual Plane counts twice (`Utf16Length`).
  - `toLowerCase` is modelled on ASCII letters only. It is only ever
    compared with `"all"`, and `LowerIsAll` shows that on ASCII this
    comparison holds for exactly the eight case spellings of "all".
  - `String(n)` for an integer is `IntToDecimal`. `DecimalValue` reads the
    digits back, and the two are proved inverse on canonical spellings.
- `Sql`: a statement is a sequence of tokens, where each `$k` placeholder is
  a token of its own, plus the sequence of bound values.
  - `WellNumbered` is the invariant every builder keeps. The placeholders
    start at `$1`, never decrease, advance by at most one at a time, and end
    at `$n` for `n` parameters.
  - `WellNumberedMeaning` proves this equivalent to the declarative
    statement. Every placeholder refers to an existing parameter, every
    parameter is referred to, and the numbers follow the order the
    parameters were pushed.
- `FlashcardModel`: the statement builders.
  - The read builders are methods that grow `query`, `conditions` and
    `params` as the source does. Each is proved equal to a declarative
    statement function and well numbered.
  - Lemmas state what the filters bind and that the count query mirrors the
    list query.
  - The write statements are functions. They fail when `front` or `back` is
    absent, because calling `trim` on `undefined` throws.
- `FlashcardController`: the controller's decisions.
  - `validateFlashcardInput` is a method that pushes messages through the
    three if/else-if chains.
  - The validation messages are a datatype. `Wording` gives their exact
    text, and `WordingInjective` shows that the text identifies the
    message.
  - The messages depend only on the trimmed lengths of the three fields.
    `CollectMessages` runs the chains on those lengths.

Where the JavaScript relies on coercion, the model fixes the types:

- `page`, the parsed difficulty and the parsed study index are integers.
- A `NaN` from `parseInt` is `None` wherever the code tests the value for
  truthiness.
- The code does not restrict the difficulty to 1..5: any non-zero integer is
  kept, and 0 or `NaN` become 1.
- `Math.ceil(0 / 12)` is 0, so an empty listing has 0 pages and no next
  page.
- A page below 1 produces a negative OFFSET. The model binds it as the code
  does and proves the OFFSET non-negative from page 1 on.
- A study index outside the list is handled exactly as written:
  - `NextIndex` lands on a card for every index from -1 on;
  - `PreviousIndex` lands on a card for every index up to `n`.
- A study request without an index starts from index 0 and steps forward,
  so it shows the second card when there are at least two.
- A rejected form with no `front` is redirected with the text `undefined`,
  because `URLSearchParams.set` converts the value to a string.

## Model

| member | source | states |
|---|---|---|
| JsText.Trim | models/flashcardModel.js:121-122 | the trimmed text is no longer than the input; it is empty exactly when the input is all whitespace; otherwise it neither starts nor ends with whitespace |
| JsText.TrimCutsWhitespace | models/flashcardModel.js:121-122 | the trimmed text is a contiguous slice of the input, and what is cut off before and after it is whitespace only |
| JsText.TrimIdempotent | models/flashcardModel.js:121-123 | trimming a trimmed text changes nothing |
| JsText.Utf16Length | controllers/flashcardController.js:220-224 | `.length` lies between the number of characters and twice that, is 0 only for the empty string, and a single character counts 2 above U+FFFF and 1 otherwise |
| JsText.Utf16LengthAppend | controllers/flashcardController.js:220-224 | the `.length` of two strings put together is the sum of theirs, so with the single-character count it fixes `.length` for every string |
| JsText.Utf16LengthOfBmp | controllers/flashcardController.js:220-224 | on text inside the Basic Multilingual Plane, `.length` is the number of characters |
| JsText.LowerIsAll | models/flashcardModel.js:33 | `toLowerCase() === 'all'` holds exactly for the three-letter spellings of "all" in any case |
| JsText.IntToDecimal | controllers/flashcardController.js:67 | the spelling of the difficulty starts with a minus sign exactly for negative numbers, then the digits of the magnitude without leading zeros |
| JsText.SpellingUnique | controllers/flashcardController.js:67 | every spelling of that form is the one `String(n)` gives, so the spelling is fixed exactly |
| JsText.NatToDecimalValue | controllers/flashcardController.js:67 | the digits of a natural number's spelling read back as that number |
| JsText.DecimalValueSpelled | controllers/flashcardController.js:67 | every digit string without leading zeros is the spelling of the number it reads as, so the spelling is unique |
| Sql.PlaceholdersAppend | models/flashcardModel.js:40-47 | appending text to a query appends its placeholders, in order |
| Sql.Join | models/flashcardModel.js:40 | joining one condition gives it unchanged; joining two puts ` AND ` between them |
| Sql.ContinuesShape | models/flashcardModel.js:28-48 | a continued numbering is sorted, stays within its bounds, starts at most one past the last number, and covers every number up to its end |
| Sql.ShapeContinues | models/flashcardModel.js:28-48 | conversely, a sequence of that shape is a continued numbering |
| Sql.WellNumberedMeaning | models/flashcardModel.js:28-48 | a statement is well numbered exactly when its placeholder numbers never decrease, all lie in 1..number of parameters, and cover every parameter |
| Sql.ContinuesConcat | models/flashcardModel.js:47-48 | numbering continued to `m`, followed by numbering continued from `m`, is continued throughout |
| FlashcardModel.FetchAllFlashcards | models/flashcardModel.js:20-48 | the statement built step by step equals the declarative list statement and is well numbered |
| FlashcardModel.GetTotalFlashcardsCount | models/flashcardModel.js:68-88 | the statement built step by step equals the declarative count statement and is well numbered |
| FlashcardModel.GetFlashcardsForStudy | models/flashcardModel.js:195-205 | the study statement is the declarative one, well numbered, with at most one parameter |
| FlashcardModel.CategoryValue | models/flashcardModel.js:123 | the category is bound as NULL exactly when it is absent or blank, and otherwise as its own trimmed text |
| FlashcardModel.SearchConditionPlaceholders | models/flashcardModel.js:28 | the search condition uses the same placeholder for front and back |
| FlashcardModel.CategoryConditionPlaceholders | models/flashcardModel.js:34 | the category condition uses one placeholder |
| FlashcardModel.WhereBothPlaceholders | models/flashcardModel.js:39-41 | with both filters the WHERE clause uses `$1`, `$1`, `$2` |
| FlashcardModel.FilterNumbered | models/flashcardModel.js:25-41 | every filter has as many conditions as parameters (at most two), and its WHERE clause is numbered `$1` to `$n` |
| FlashcardModel.LimitOffsetPlaceholders | models/flashcardModel.js:47 | LIMIT and OFFSET take `$n+1` and `$n+2` |
| FlashcardModel.ListOfPlaceholders | models/flashcardModel.js:39-47 | the list statement's placeholders are those of its WHERE clause followed by LIMIT's and OFFSET's |
| FlashcardModel.ListOfWellNumbered | models/flashcardModel.js:47-48 | LIMIT and OFFSET keep a well-numbered filter well numbered |
| FlashcardModel.ListWellNumbered | models/flashcardModel.js:20-48 | every list statement is well numbered |
| FlashcardModel.CountWellNumbered | models/flashcardModel.js:69-88 | every count statement is well numbered |
| FlashcardModel.StudyWellNumbered | models/flashcardModel.js:195-205 | every study statement is well numbered |
| FlashcardModel.InsertPlaceholders | models/flashcardModel.js:117-119 | the insert text uses `$1` to `$4` in order |
| FlashcardModel.UpdatePlaceholders | models/flashcardModel.js:153-156 | the update text uses `$1` to `$5` in order |
| FlashcardModel.InsertQueryNumbered | models/flashcardModel.js:117-125 | the insert text is numbered for exactly four parameters |
| FlashcardModel.UpdateQueryNumbered | models/flashcardModel.js:153-163 | the update text is numbered for exactly five parameters |
| FlashcardModel.CardValues | models/flashcardModel.js:120-125 | the first four write values: front and back as text, every text its own trim, the category NULL or its own trim, then the difficulty |
| FlashcardModel.InsertStatement | models/flashcardModel.js:108-131 | create fails, with "Failed to create flashcard", exactly when front or back is absent; otherwise its statement is the INSERT text of lines 117-119, well numbered, and binds normalised text and the difficulty |
| FlashcardModel.UpdateStatement | models/flashcardModel.js:143-169 | update fails, with "Failed to update flashcard", exactly when front or back is absent; otherwise its statement is the UPDATE text of lines 153-156, well numbered, and binds normalised text and the difficulty to `$1`..`$4` and the id to `WHERE id = $5` |
| FlashcardModel.DeleteStatement | models/flashcardModel.js:177-185 | delete sends `DELETE FROM flashcards WHERE id = $1`, well numbered, binding the id alone |
| FlashcardModel.WhereKeywordIffConditions | models/flashcardModel.js:39-41 | WHERE appears exactly when a condition was added, and a condition is added exactly when a filter is on |
| FlashcardModel.WhereIffFiltered | models/flashcardModel.js:39-41 | the list and count statements contain WHERE exactly when the search term is non-blank or the category filter is on |
| FlashcardModel.SearchFilter | models/flashcardModel.js:26-30 | the search condition comes first exactly when the trimmed term is non-empty; it binds `%`+trimmed term+`%` to one placeholder used twice |
| FlashcardModel.CategoryFilter | models/flashcardModel.js:33-36 | the category condition comes last exactly when the category is present, non-empty and not "all" in any case; it binds the category untrimmed |
| FlashcardModel.ListPagination | models/flashcardModel.js:47-48 | the list statement binds the filter's values, then the page size, then the offset (page-1)*pageSize; the bound offset is non-negative from page 1 on |
| FlashcardModel.CountMirrorsList | models/flashcardModel.js:74-88 | the count statement has the list statement's conditions and values, without ordering, LIMIT and OFFSET |
| FlashcardModel.StudyFilter | models/flashcardModel.js:195-205 | the study statement selects from all cards and ends in random order; it has at most one parameter, present exactly when the category filter is on, and then the category unchanged |
| FlashcardModel.WriteArguments | models/flashcardModel.js:120-125 | create and update succeed exactly when front and back are present; they bind trimmed front and back, the category value, and the difficulty unchanged; update also binds the id |
| FlashcardModel.InsertIsFixpoint | models/flashcardModel.js:121-123 | creating a card from the values a create statement stores binds the same values again |
| FlashcardModel.CardValuesFixpoint | models/flashcardModel.js:121-124 | normalising stored card values gives the same values |
| FlashcardModel.CategoryValueFixpoint | models/flashcardModel.js:123 | the category value of a stored category value is that value again |
| FlashcardController.WordingInjective | controllers/flashcardController.js:221-240 | no two messages read the same |
| FlashcardController.WordingsInjective | controllers/flashcardController.js:63 | two message lists redirect with the same texts exactly when they are the same list |
| FlashcardController.TrimmedLengthBounds | controllers/flashcardController.js:220 | the trimmed length is 0 exactly for an absent or blank field, and lies between the trimmed character count and twice that |
| FlashcardController.ValidateFlashcardInput | controllers/flashcardController.js:216-244 | the messages are those of the fields' trimmed lengths; none exactly when the card is acceptable; at most three, at most one per field, in field order |
| FlashcardController.CollectMessages | controllers/flashcardController.js:217-243 | the three if/else-if chains push the messages of the given lengths, none exactly when all lengths are acceptable, ordered by field |
| FlashcardController.ValidationPasses | controllers/flashcardController.js:216-243 | no message exactly when front is 3..500, back 1..1000 and category 1..50 |
| FlashcardController.ValidationOrdered | controllers/flashcardController.js:220-241 | at most three messages, with strictly increasing fields |
| FlashcardController.FieldMessages | controllers/flashcardController.js:220-241 | the messages about each field are exactly that field's own message, if any |
| FlashcardController.BlankFront | controllers/flashcardController.js:220-221 | an absent or blank front is exactly the case where "required" comes first, and then it is the only front message |
| FlashcardController.FrontLength | controllers/flashcardController.js:222-225 | trimmed front length 1..2 gives exactly "too short", over 500 exactly "too long", 3..500 no front message |
| FlashcardController.BackLength | controllers/flashcardController.js:229-233 | back length 0 gives exactly "required", over 1000 exactly "too long", otherwise no back message |
| FlashcardController.CategoryLength | controllers/flashcardController.js:236-241 | category length 0 gives exactly "required", over 50 exactly "too long", otherwise no category message |
| FlashcardController.TotalPages | controllers/flashcardController.js:21 | the page count is the fewest pages of the page size that hold all cards |
| FlashcardController.Paginate | controllers/flashcardController.js:40-43 | the page count is the ceiling of total over 12; a next page is offered exactly when cards lie beyond the current page, and a previous page exactly when the page is above 1 |
| FlashcardController.PagesAreNonEmpty | controllers/flashcardController.js:40-43 | from page 1 on, the page's offset is below the total exactly when the page is at most the page count |
| FlashcardController.EmptyListing | controllers/flashcardController.js:41-43 | with no cards there are 0 pages and no next page from any page |
| FlashcardController.NextIndex | controllers/flashcardController.js:187 | the next index is a card of the list exactly when the incoming index is at least -1 |
| FlashcardController.PreviousIndex | controllers/flashcardController.js:185 | the previous index is a card of the list exactly when the incoming index is at most n |
| FlashcardController.NavigationModulo | controllers/flashcardController.js:184-188 | on the cards of the list, next is +1 and previous is -1 modulo n |
| FlashcardController.NavigationInverse | controllers/flashcardController.js:184-188 | previous undoes next and next undoes previous; next from the last card is 0 and previous from 0 is the last |
| FlashcardController.ForwardWithin | controllers/flashcardController.js:187 | before the end of the list, k steps forward add k |
| FlashcardController.ForwardCycle | controllers/flashcardController.js:187 | stepping forward reaches every card in fewer than n steps, and n steps return to the start |
| FlashcardController.StudyCategory | controllers/flashcardController.js:176 | the study list is asked for "all" exactly for an absent, empty, 'All' or 'all' category, and otherwise for the category as given |
| FlashcardController.StudyQueryFilter | controllers/flashcardController.js:176-177 | the study statement filters exactly when the requested category is present, non-empty and not "all" in any case, and then binds it unchanged |
| FlashcardController.StudySession | controllers/flashcardController.js:172-188 | the handler redirects, to the "No flashcards found to study" location, exactly when the list is empty |
| FlashcardController.StudySessionShowsACard | controllers/flashcardController.js:172-188 | with cards and a valid or absent index, the shown card is in the list and is the incoming index's neighbour modulo n |
| FlashcardController.StudyFilterShown | controllers/flashcardController.js:201 | the view shows 'All' exactly for an absent, empty, 'All' or 'all' category, and otherwise the category itself |
| FlashcardController.DefaultDifficulty | controllers/flashcardController.js:56 | the difficulty is never 0, and a parsed non-zero value is kept |
| FlashcardController.DefaultDifficultyIdempotent | controllers/flashcardController.js:97 | defaulting twice is defaulting once, and the result is 1 exactly for NaN, 0 and 1 |
| FlashcardController.RedirectPairs | controllers/flashcardController.js:62-67 | one `errors` pair per message, in order, then four pairs none of which is an `errors` pair |
| FlashcardController.FieldPairs | controllers/flashcardController.js:64-67 | the keys front, back, category and difficulty in that order; present fields keep their submitted text; the difficulty value spells the difficulty |
| FlashcardController.ErrorPairs | controllers/flashcardController.js:63 | one `errors` pair per message, in order |
| FlashcardController.ValuesOfMembers | controllers/flashcardController.js:24-26 | reading `req.query` under a key gives a text exactly when some redirected pair carries that text under that key |
| FlashcardController.ErrorValues | controllers/flashcardController.js:63 | the `errors` pairs read back the messages under `errors` and nothing under any other key |
| FlashcardController.FieldValues | controllers/flashcardController.js:64-67 | the field pairs read back one value under each of front, back, category and difficulty |
| FlashcardController.RedirectValues | controllers/flashcardController.js:62-67 | reading the redirect under a key gives the messages (for `errors`) followed by the field's value |
| FlashcardController.RedirectRoundTrip | controllers/flashcardController.js:62-68 | the redirect reads back exactly the messages in order, and the submitted front, back, category and difficulty |
| FlashcardController.TrimmedField | controllers/flashcardController.js:220-241 | a field whose trimmed length meets a positive minimum is present and non-blank, and its trimmed text is stored as it is |
| FlashcardController.InsertedParams | models/flashcardModel.js:120-125 | with front, back and a non-blank category, the insert binds the three trimmed texts and the difficulty |
| FlashcardController.AcceptedIsStored | controllers/flashcardController.js:59-73 | a card that passes validation is created, with trimmed texts of the accepted lengths and a non-zero difficulty |
| FlashcardController.AddFlashcard | controllers/flashcardController.js:53-79 | a write happens exactly for an acceptable card; a redirect carries the validation messages and the defaulted difficulty; a write is the insert statement of a stored card |
| FlashcardController.UpdateFlashcard | controllers/flashcardController.js:94-120 | as for create, with the update statement, which also binds the id |

## Left out

- `app.js` and `routes/flashcardRoutes.js`: framework bootstrap and a route table with no logic.
- Running statements (`pool.query`), rows, `NOW()` and the `ORDER BY RANDOM()` shuffle: these are the store's I/O and randomness. The model stops at the statement.
- `parseInt(rows[0].count, 10)`: the count is an input (`total`) of the pagination functions.
- `res.render`, `res.redirect`, `res.status`, `console.error` and the `try`/`catch` blocks around store calls. A failing store call answers "Server Error"; that is not modelled.
- `prepareEditFlashcard` beyond its pagination: it parses the referer URL with `new URL`, which is library behaviour.
- `deleteFlashcard` beyond its statement: the redirect to the referer is framework glue.
- `getAllFlashcards` beyond its pagination: it renders the form defaults (`req.query.front || ''` and the like). Reading `errors` back is modelled only as `ValuesOf` over the appended pairs.
- The percent-encoding of `URLSearchParams.toString()`: the redirect is modelled as its list of key/value pairs.
- The decimal spelling of `$k` in the query text: a placeholder is a token that carries its number.
- What ILIKE and `=` match in the store: the model fixes the text and the values, not their meaning to PostgreSQL.
- Request fields that are not strings: fields are absent or strings. A repeated key in the body (`front`, `back`, `category`) or in the query string (`search`, `category`) arrives as an array, and then `.trim()` or `.toLowerCase()` throws. A repeated `page` or `currentIndex` arrives as an array too, but nothing throws: it is coerced to its comma-joined text, so `page - 1` is `NaN`, `page > 1` is false and `parseInt` reads the first number. None of this is modelled.
- The id of update and delete: `parseInt(req.params.id)` is an integer in the model. A non-numeric path gives `NaN`, which the statement would bind; that is not modelled.
- JavaScript numbers are doubles: the model's integers are unbounded. `parseInt` rounds digit strings above 2^53, and `String(n)` switches to exponent notation from 1e21. Neither is modelled.
- StudySession: a `currentIndex` that `parseInt` turns into `NaN` is not modelled; the index is an integer or absent.
- JsText.ToLower: it lowercases ASCII letters only. It is compared only with "all", and no non-ASCII character lowercases to `a` or `l`.
