# Equipment inventory tracker: category suggester and inventory rules in Dafny

This project models two parts of a small equipment-inventory web application
(a Flask back end, `app.py`, and a browser front end, `static/app.js`).

**The category suggester** (`static/app.js`, inside `setupSearchableDropdown`).
When the user types a category name, the drop-down lists the known names whose
lower-cased form contains the lower-cased text, in their original order. When
nothing matches and the text has at least two characters, the front end offers
a "did you mean" suggestion instead. It compares the lower-cased text with
every lower-cased name by Levenshtein similarity `(L - d) / L`, where `L` is the
length of the longer string. Exact case-insensitive matches (score 1) are
skipped, and the suggestion is the first name with the strictly highest score,
provided that score is at least 0.7.

- `levenshtein.dfy` (module `Levenshtein`): `Lev` is the textbook recursive
  edit distance. `LevenshteinDistance` is the source's table-filling method on
  a two-dimensional array, proved to return `Lev`. The lemmas cover the base
  row and column, identity, zero exactly for equal strings, the bounds
  `||a|-|b|| <= d <= max(|a|,|b|)`, and symmetry. They also show that the
  source's shortcut is correct: on equal characters it copies the diagonal cell
  without taking a minimum.
- `suggester.dfy` (module `Suggester`): `Similarity`, the scan `BestOf` (the
  `forEach` with its `bestScore`/`bestMatch` accumulators), `Suggest` (the value
  of `findSimilarCategory`), the imperative `FindSimilarCategory` proved equal to
  it, `Includes` (`String.prototype.includes`), `Filter` and `PopulateList`.
- `suggester_examples.dfy` (module `SuggesterExamples`): three worked cases.
  A one-letter typo is suggested, a case-insensitive exact match is not, and
  substring hits keep the suggester from running.

**The inventory rules** (`app.py`). The handlers are modelled as methods of a
class `Store`. Its fields stand for the three tables (`kategori`, `ekipman`,
`ekipman_hareket`) and the next ids. A handler that commits assigns the fields.
A handler that rolls back leaves them unchanged. Request bodies are JSON
dictionaries (`map<string, Json>`), so `'x' in data` and `data.get('x', d)` keep
their exact Python meaning.

- `records.dfy` (module `Records`): JSON values, the records, the replies with
  their HTTP status codes, and Python's `str.strip` with its white-space set.
- `inventory.dfy` (module `Inventory`): the uniqueness invariants (category
  names; non-null serial numbers and barcodes) and the handlers `add_kategori`,
  `delete_kategori`, `ekipman_ekle`, `ekipman_guncelle`, `ekipman_sil` and
  `hareket_ekle`.
- `statistics.dfy` (module `Statistics`): `get_istatistikler`, with lemmas
  proving that the status counts stay within the total and that the
  per-category counts sum to it.
- `wrappers.dfy` (module `Wrappers`): `Option` and `Result`.

Modelling decisions:
- Strings are `seq<char>`. One `char` stands for one UTF-16 code unit of the
  front end, or one code point of Python.
- `toLowerCase` is modelled for Basic Latin, Latin-1 and Latin Extended-A,
  which contain every Turkish letter. The capital dotted I (`İ`) becomes two
  code units (`i` followed by a combining dot), as in JavaScript. Every other
  character is left unchanged.
- Scores are exact `real`s.
- The minimum-length test is on the raw input. The code does not trim it
  (`static/app.js:162`).
- `delete_kategori` calls `get_or_404` inside its `try`, so the `except` branch
  catches the 404 for an unknown id and answers 400. `ekipman_guncelle` and
  `ekipman_sil` call it outside their `try` and answer 404. The model keeps this
  difference.
- `ekipman_ekle` commits a missing category before it builds the equipment. A
  later failure (a non-text date, or a serial number or barcode already in use)
  therefore leaves the new category in place. `ekipman_guncelle` never creates
  categories, so equipment can name a category that does not exist.
- `hareket_ekle` dereferences the equipment only for the kinds `Çıkış` and
  `İade`. A movement of another kind for an unknown equipment id is recorded,
  because SQLite does not enforce foreign keys by default.
- When several checks fail in one request, the model reports the first one in
  a fixed order, which follows the source's statements. `AddEquipment` checks
  the category, then the date, then the serial number, then the barcode.
  `UpdateEquipment` checks the date, then the category, then the serial
  number, then the barcode. At commit, the database may report a different
  violated constraint than the one the model reports.
- An explicit `"durum": null` on insert stores "Depoda". The ORM leaves a
  `None` attribute out of the INSERT, so the column default (`models.py:16`)
  applies. An update writes the null as given.

## Model

| member | source | states |
|---|---|---|
| `Levenshtein.LevenshteinDistance` | static/app.js:122-149 | the filled table's last cell is the Levenshtein distance `Lev(s1, s2)` |
| `Levenshtein.CellStep` | static/app.js:134-146 | each interior cell, in the order the source writes it (copy the diagonal on equal characters, else 1 + the least neighbour), equals the distance of the two prefixes |
| `Levenshtein.LevMatchShortcut` | static/app.js:136-137 | when the last characters agree, the diagonal alone is the distance, so skipping the minimum is sound |
| `Levenshtein.LevToEmpty` | static/app.js:127-132 | distance to or from the empty string is the other string's length (the first column and row) |
| `Levenshtein.LevLower` | static/app.js:134-148 | the distance is at least the difference of the lengths |
| `Levenshtein.LevUpper` | static/app.js:134-148 | the distance is at most the longer length |
| `Levenshtein.LevSelf` | static/app.js:134-148 | a string is at distance 0 from itself |
| `Levenshtein.LevZeroIff` | static/app.js:134-148 | distance 0 exactly for equal strings |
| `Levenshtein.LevSymmetric` | static/app.js:134-148 | `Lev(a, b) == Lev(b, a)` |
| `Levenshtein.LevDropRight` | static/app.js:134-148 | dropping the last character of the second string raises the distance by at most one |
| `Suggester.LowerUnit` | static/app.js:164 | each code unit becomes one lower-case code unit, except the capital dotted I, which becomes two; lower-case ASCII letters stay as they are |
| `Suggester.LowerUnitTable` | static/app.js:164 | each capital of Basic Latin and Latin-1 becomes its small letter; the Turkish capitals Ç, Ğ, Ö, Ş, Ü become ç, ğ, ö, ş, ü; `I` becomes `i`, `İ` becomes `i` and a combining dot, and `ı` stays |
| `Suggester.LowerUnitFolded` | static/app.js:164 | every code unit that lower-casing produces is itself left unchanged by lower-casing |
| `Suggester.Lower` | static/app.js:164 | `toLowerCase` on a string never makes it shorter |
| `Suggester.LowerAppend` | static/app.js:164 | lower-casing distributes over concatenation |
| `Suggester.LowerOfUnit` | static/app.js:164 | lower-casing the output of one code unit's fold changes nothing |
| `Suggester.LowerIdempotent` | static/app.js:164 | lower-casing an already lower-cased string changes nothing |
| `Suggester.Similarity` | static/app.js:152-158 | the score lies in [0, 1] |
| `Suggester.SimilarityValue` | static/app.js:153-157 | unless both strings are empty, the score is `(L - Lev) / L` with `L` the longer length, whichever argument is longer |
| `Suggester.SimilarityOneIff` | static/app.js:156-157 | score 1 exactly for equal strings (including two empty ones) |
| `Suggester.SimilaritySymmetric` | static/app.js:153-157 | the score does not depend on argument order |
| `Suggester.BestOf` | static/app.js:165-175 | the scanned best score is in [0, 1); no entry is held exactly when it is 0; a held entry is in the list and scores the best score |
| `Suggester.BestOfSpec` | static/app.js:168-174 | the best score is the maximum over all entries scoring below 1, and every earlier entry scores strictly less or exactly 1 (earliest wins ties) |
| `Suggester.SuggestSpec` | static/app.js:161-178 | no suggestion for input shorter than 2 or an empty list; a suggestion exactly when a non-exact entry reaches 0.7; it is an original-case list name, scores in [0.7, 1), is not a case-insensitive exact match, is maximal and the earliest maximal one |
| `Suggester.Suggest` | static/app.js:161-178 | no suggestion for input shorter than 2 code units; a suggestion is an original-case list name whose score is in [0.7, 1) (the full characterisation is `SuggestSpec`) |
| `Suggester.FindSimilarCategory` | static/app.js:161-178 | the loop with its accumulators returns `Suggest(inputValue, kategoriler)` |
| `Suggester.IncludesIff` | static/app.js:184 | `includes` holds exactly when the substring occurs at some position |
| `Suggester.Filter` | static/app.js:183-185 | the filtered list is no longer than the input and holds exactly the names whose lower-cased form contains the lower-cased filter |
| `Suggester.FilterAppend` | static/app.js:183-185 | filtering distributes over concatenation, so it keeps the original order |
| `Suggester.FilterEmptyKeepsAll` | static/app.js:183-185 | an empty filter keeps every name in order |
| `Suggester.FilterNoneMatch` | static/app.js:183-185 | when no name matches, the list is empty |
| `Suggester.PopulateListSpec` | static/app.js:181-200 | a suggestion appears only when no name matches and the filter has at least 2 characters, and then it is exactly the suggester's answer; any match suppresses it; a suggested name never contains the filter |
| `Suggester.PopulateList` | static/app.js:181-199 | the shown names are exactly the matching ones; a suggestion comes only with an empty list and a filter of at least 2 code units (the full characterisation is `PopulateListSpec`) |
| `SuggesterExamples.LaptobSuggestsLaptop` | static/app.js:161-178 | "Laptob" against ["Laptop"] suggests "Laptop" with score 5/6 |
| `SuggesterExamples.ExactMatchNotSuggested` | static/app.js:168-177 | "laptop" against ["Laptop"] gives no suggestion |
| `SuggesterExamples.SubstringHitsPreventSuggestion` | static/app.js:183-199 | "top" against ["Laptop", "Desktop"] lists both and suggests nothing |
| `Records.StripLeft` | app.py:42 | the result is a suffix, everything cut is white space, and it does not start with white space |
| `Records.StripRight` | app.py:42 | the result is a prefix, everything cut is white space, and it does not end with white space |
| `Records.StripSlice` | app.py:42 | `strip` returns one slice of the name with only white space around it |
| `Records.StripEnds` | app.py:42 | a stripped name neither starts nor ends with white space |
| `Records.StripEmptyIff` | app.py:42-44 | the stripped name is empty exactly when the name is all white space |
| `Records.StripIdempotent` | app.py:42 | stripping twice equals stripping once |
| `Inventory.RequestedName` | app.py:42-44 | an accepted category name is the stripped `ad`, non-empty, without surrounding white space; otherwise the error is an empty name or a non-text `ad` |
| `Inventory.UsageCount` | app.py:64-65 | the count is 0 exactly when no equipment names the category |
| `Inventory.Patch` | app.py:167-186 | each field named in the payload takes its value, every other field keeps its own, `temin_tarihi` only when present and truthy |
| `Inventory.PatchIdempotent` | app.py:167-186 | applying the same update twice equals applying it once |
| `Inventory.WithoutEquipment` | models.py:25 | the cascade delete keeps exactly the movements of other equipment |
| `Inventory.StatusAfter` | app.py:239-243 | an out movement (`Çıkış`) makes the state "Kullanımda", a return (`İade`) makes it "Depoda", any other kind keeps the state |
| `Inventory.NewMovement` | app.py:226-236 | the movement carries its id, the equipment id, the kind, and each optional field of the request (null when absent) |
| `Inventory.ReplaceKeepsCodesUnique` | models.py:14-15 | replacing a record by one whose serial number and barcode no other record holds keeps them unique |
| `Inventory.NewEquipment` | app.py:139-150 | the record carries the requested category and each optional field of the request (null when absent); its state is never null: the request's non-null `durum`, else "Depoda" (models.py:16); its purchase date is the request's when truthy, else null |
| `Inventory.BadDate` | app.py:135-137 | only a present, truthy `temin_tarihi` that is not text is refused; a text date and an absent or falsy one never are |
| `Inventory.Store.InsertCategory` | app.py:49-51 | a new category gets the next id and nothing else in the table changes |
| `Inventory.Store.AddCategory` | app.py:38-55 | empty or non-text names are refused with the matching error, existing names with `NameExists`, the store unchanged; a trimmed, non-empty, new name is always added (201), as exactly that one category under the next id, and the uniqueness invariants hold |
| `Inventory.Store.DeleteCategory` | app.py:58-81 | an unknown id (400) and a category still named by `n` records (`CategoryInUse(n)`) are refused with the store unchanged; a known category that no record names is always removed (200), and nothing else changes |
| `Inventory.Store.AddEquipment` | app.py:118-158 | a missing, null or non-text `kategori` changes nothing; otherwise a missing category is created and kept whatever follows; the insert fails on a non-text date or a used serial number or barcode; otherwise the record `NewEquipment` (state "Depoda" when `durum` is missing or null) is added under the next id |
| `Inventory.Store.UpdateEquipment` | app.py:161-192 | unknown id gives 404; a non-text date, a null category, a number or boolean category (stored as text by the source, see Left out), or a code held by another record is refused with nothing changed; otherwise only that record changes, to `Patch(old, data)` |
| `Inventory.Store.DeleteEquipment` | app.py:195-205 | unknown id gives 404 and nothing changes; otherwise the record and its movements go and nothing else changes |
| `Inventory.Store.AddMovement` | app.py:221-251 | missing keys, a non-integer id, a null kind, or an out/return movement for an unknown equipment change nothing; otherwise the movement is appended, `Çıkış` sets the state to "Kullanımda", `İade` to "Depoda", other kinds leave equipment unchanged |
| `Statistics.GetStatistics` | app.py:255-274 | the reply is `StatsOf` the equipment table: the total, the number with each of the three states, and the count per named category; the three state counts never exceed the total |
| `Statistics.StatsOf` | app.py:257-266 | the total is the number of records, each state count is at most the total, and the grouped categories are exactly those some record names |
| `Statistics.StatusCountsWithinTotal` | app.py:257-260 | each state count, and the three together, are at most the total ("Hurda" is a fourth state) |
| `Statistics.CountsAddUp` | app.py:263-266 | the counts of a set of categories sum to the number of records in those categories |
| `Statistics.CategoryCountsSumToTotal` | app.py:263-273 | the per-category counts sum to the total and every record's category is listed |
| `Statistics.CategoryCountsPositive` | app.py:263-266 | every listed category has a positive count |

## Left out

- Everything on the page: DOM templating, event listeners, tab switching, the modal, `showAlert` and its timer. The suggester is modelled only up to the names it would show and the suggestion it would render.
- Every `fetch` call and every `load*`/`handle*Submit` function of `static/app.js`. They are HTTP plumbing, and their `parseFloat` and date formatting are floating point and locale code.
- Flask routing, CORS, `render_template`, the JSON reply bodies and error texts, and the SQLAlchemy query builders. Only each handler's effect on the tables and its status code are modelled.
- The read-only listing handlers `get_kategoriler`, `get_ekipman` (with its `LIKE` search, whose case rules depend on the database), `get_ekipman_detay` and `get_hareketler`. They change nothing, and ordering by time needs the clock.
- Timestamps (`olusturma_tarihi`, `guncelleme_tarihi`, the movement's `tarih`), because they come from the clock.
- Inventory.Store.AddEquipment: any text `temin_tarihi` is taken as a valid ISO date and stored as given. The source's `fromisoformat` can still reject a malformed text after the category was committed.
- Inventory.Store.UpdateEquipment: as for AddEquipment, a text `temin_tarihi` is never rejected as a malformed date.
- Inventory.Store.AddEquipment: a `kategori` that is a number or boolean is refused. SQLite would coerce it to text.
- Inventory.Store.UpdateEquipment: a `kategori` that is a number or boolean is refused with 400 and nothing changed. The source assigns it, SQLite stores it as text, and the reply is 200.
- SQLite's text affinity is not modelled for the text columns. The uniqueness tests (`SerialTaken`, `BarcodeTaken`) compare JSON values. So a number `123` and the text `"123"` count as different serial numbers here, while SQLite would store both as the same text and refuse the second.
- Inventory.Store.AddMovement: an `ekipman_id` that is not a whole JSON number (text such as `"abc"` or `"5"`, or a fraction such as `2.5`) is refused. For kinds other than `Çıkış` and `İade`, the source stores the value and records the movement with 201. Numeric text such as `"5"` is stored as the integer 5.
- `temin_fiyati` is stored as the JSON value it arrives as. Floating-point rounding is not modelled.
- Id allocation is modelled with counters. SQLite can reuse the largest id after that row is deleted.
- Ids are unbounded integers here, while SQLite's INTEGER is 64-bit and the Python driver refuses to bind an integer of 2^63 or more. The model answers `NotFound` for such an id in `UpdateEquipment` and `DeleteEquipment`, where the source fails outside its `try` (a 500). The model also records a movement of another kind for such an `ekipman_id` in `AddMovement`, where the source answers 400.
- Commit failures other than the NOT NULL and UNIQUE constraints (locking, disk errors).
- A request body that is not a JSON object, and JSON arrays or objects as field values.
- Suggester.Similarity: scores are exact reals, not IEEE doubles. For names short enough to type, rounding cannot change the comparisons with 0.7, with 1, or between two scores.
- Suggester.LowerUnit: lower-casing beyond Latin-1 and Latin Extended-A is not modelled, including context-dependent rules such as the final sigma.
- Characters outside the Basic Multilingual Plane count as one position here. JavaScript counts two UTF-16 code units for them.
- `models.py` is carried over only as the uniqueness invariants (`Kategori.ad`, `seri_no`, `barkod`) and the delete cascade of movements. `to_dict` is serialisation.
- `init_db.py` seeds the category table from a script. Its rule, skipping names that already exist, is the duplicate rule of `AddCategory`.
