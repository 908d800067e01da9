# Near-Earth objects: record construction, query filters and output rows

This project is a Dafny model of the query side of a near-Earth-object (NEO)
explorer, which is written in Python. It covers four parts:

- how `NearEarthObject` and `CloseApproach` records are built from keyword information;
- how the ten command-line criteria become predicate filters, and what a filter answers for a close approach;
- how `limit` caps the result stream;
- how each close approach and its NEO become a CSV row or a JSON record.

Modules:

- `Wrappers`: `Option` (Python `None` versus a value) and `Result` (a value or the exception Python would raise).
- `Decimal`: the part of Python's `float(text)` the data files use. It reads decimal numerals with surrounding white space and an optional sign. The numbers are exact reals.
- `Models` (models.py):
  - dates and date-times;
  - the NEO and close-approach records with their constructors;
  - `fullname`;
  - the two `serialize` dictionaries, whose keys are the enumerated `Key` (each key's spelling is `Key.Text`).
- `Filters` (filters.py):
  - one filter type, tagged with the attribute it reads, standing for the base class and its five subclasses;
  - Python's `==`, `>=` and `<=` on the operands that occur;
  - `create_filters` and `limit`;
  - "matches all filters" as an ordered, short-circuiting conjunction.
- `Write` (write.py): the per-approach CSV row and JSON record, and the whole stream of each.

Exceptions are results: `UnsupportedCriterion`, `TypeError`, `ValueError` and `AttributeError`.

Three details of models.py that the model follows:

- The constructor turns only the exact names `''` and `' '` into "no name" (models.py:42). Other white-space-only names are kept.
- The docstring of `isDigitorNone` (models.py:52-56) says a failed conversion gives NaN. But an absent (`None`) diameter is not defaulted to NaN: `float(None)` raises `TypeError`, and `isDigitorNone` catches only `ValueError`. Unreadable text does become NaN.
- The class docstring (models.py:27) calls the designation required, but the constructor reads it with `info.get` (models.py:43) and stores whatever it is given, `None` included. The hazardous flag is likewise stored as given.

## Model

| member | source | states |
|---|---|---|
| Models.NormalizeName | models.py:41-42 | the name becomes none exactly when it is absent, `''` or `' '`; any other name is kept unchanged |
| Models.CoerceDiameter | models.py:50-65 | readable text gives its number, unreadable text gives NaN without failing, a number is kept, and only an absent value fails (`TypeError`) |
| Models.NewNeo | models.py:36-48 | construction fails only for an absent diameter, and then with `TypeError`; the result has an empty `approaches`, the normalised name, the given designation and flag, and the coerced diameter |
| Models.Fullname | models.py:68-74 | with a non-empty name the result is the designation, then ` (`, then the name, then `)`; otherwise it is the designation alone |
| Models.SerializeNeo | models.py:86-93 | exactly the keys designation, name, diameter_km and potentially_hazardous; a missing name or designation becomes `""`; NaN stays NaN; the hazardous flag passes through unchanged |
| Models.CoerceDistance | models.py:117-119 | a number is kept; text gives its number or fails with `ValueError`; an absent value fails with `TypeError` |
| Models.NewApproach | models.py:110-121 | construction succeeds exactly when the distance coerces; the distance is then that number and the other fields are as given |
| Models.SerializeApproach | models.py:151-157 | exactly the keys datetime_utc, distance_au and velocity_km_s, holding the time, distance and velocity |
| Models.KeySpellings | models.py:88-93 | no two dictionary keys share a spelling, so the enumerated keys stand for distinct strings |
| Models.TextDiameterNeverRaises | models.py:62-65 | any text diameter builds an NEO; its diameter is NaN exactly when the text does not read as a number |
| Models.DiameterTextRoundTrip | models.py:62-63 | the numeral of a whole number of kilometres reads back as that diameter |
| Models.BlankDiameterIsNaN | models.py:62-65 | text without digits, such as the empty cell, becomes NaN |
| Models.DistanceTextRoundTrip | models.py:117-119 | a distance numeral reads back as that distance; text without digits is a `ValueError` |
| Models.FullnameOfNewNeo | models.py:41-74 | for any designation, `None` included, the fullname of a freshly built NEO is its designation alone exactly when the name given was absent, `''` or `' '` |
| Models.SerializedNameOfNewNeo | models.py:41-93 | a built NEO serializes its name as `""` when the name given was absent, `''` or `' '`, and as the given name otherwise |
| Decimal.ParseFloat | models.py:63 | `float` of text reads a number only when the text holds a digit |
| Decimal.ParseFloatIgnoresSpace | models.py:63 | white space around a numeral does not change what `float` reads from it |
| Decimal.NatTextValue | models.py:63 | the decimal numeral of n denotes n |
| Decimal.NatTextRoundTrip | models.py:63 | `float` of the numeral of n is n |
| Decimal.NegativeNatTextRoundTrip | models.py:63 | `float` of `-` followed by the numeral of n is -n |
| Decimal.NoDigitsNoNumber | models.py:62-65 | text with no digit never reads as a number |
| Filters.Equals | filters.py:17 | `==` on numbers and booleans is equality of value (`True` is 1), false whenever NaN is involved; days are equal exactly when they are the same date; `None` equals `None`; values of unrelated kinds are never equal |
| Filters.AtMost | filters.py:17 | `<=` fails with `TypeError` exactly for pairs that are not both numeric or both dates; two numbers (booleans as 0/1) compare by value, two days by the calendar, and NaN makes it false |
| Filters.Compare | filters.py:17 | `eq` never raises; `ge` and `le` order numbers by value and days by the calendar, are false when NaN is involved, and raise `TypeError` on any other pairing |
| Filters.Extract | filters.py:59-193 | the base `get` raises `UnsupportedCriterionError`; date reads the calendar day, distance and velocity read the approach; diameter and hazard read the linked NEO's diameter and flag (`None` stays `None`), and raise `AttributeError` when no NEO is linked |
| Filters.Call | filters.py:55-57 | an exception of `get` propagates; otherwise the result is `op(get(approach), value)` with the reference value on the right; its value for each criterion is stated by `NumericBounds`, `DateFiltersCompareDays`, `DiameterBounds` and `HazardFilter` |
| Filters.MatchesAll | filters.py:3-5 | true exactly when every filter returns true; a false result or an error comes from the first filter that does not return true |
| Filters.FiltersFrom | filters.py:264-272 | every visited key with a value yields its filter, and every filter produced comes from a visited key whose value it carries |
| Filters.FiltersFromAppend | filters.py:267-270 | the loop over two runs of keys yields the filters of the first run followed by those of the second |
| Filters.FiltersFromOrder | filters.py:267-270 | when the keys at positions i < j both have a value, the filter of key i comes before that of key j |
| Filters.CreateFilters | filters.py:196-272 | a filter with the mapped class and operator and value v is present exactly when that criterion's value is v (not `None`); with no criteria the result is empty |
| Filters.Mapping | filters.py:237-248 | no criterion uses the base class; only `date` and `hazardous` test equality; the `*_min` criteria and `start_date` are lower bounds; exactly the three date criteria use the date filter |
| Filters.ValueOf | filters.py:251-262 | each of the ten criteria reads its own `create_filters` argument: present exactly when that argument is not `None`, and then carrying its value (a day for the three date criteria, a boolean for `hazardous`, a number otherwise) |
| Filters.CreateFiltersInOrder | filters.py:264-272 | `create_filters` is the loop over every criterion in `filter_mappings` order |
| Filters.CreateFiltersOrder | filters.py:237-272 | when two criteria are given, the filter of the one listed first in `filter_mappings` comes first in the result |
| Filters.EveryCriterionListed | filters.py:237-248 | the mapping has an entry for each of the ten criteria |
| Filters.CriterionOrderDistinct | filters.py:237-248 | each of the ten criteria appears once in the mapping's iteration order |
| Filters.MappingInjective | filters.py:237-248 | no two criteria share a class and operator, so each filter identifies its criterion |
| Filters.FiltersFromCount | filters.py:266-270 | over distinct keys, the number of filters equals the number of keys whose value is not `None` |
| Filters.CreateFiltersCount | filters.py:264-272 | `create_filters` yields exactly one filter per criterion that is not `None` |
| Filters.NotHazardousIsActive | filters.py:210-212 | `hazardous=False` yields the hazard eq-False filter, which accepts an approach exactly when its NEO is not hazardous |
| Filters.HazardFilter | filters.py:183-193 | `hazardous=b` accepts a linked approach exactly when its NEO's flag is `b`, so a `None` flag fails both `True` and `False`; an unlinked approach raises `AttributeError` |
| Filters.DateFiltersCompareDays | filters.py:92-103 | `date` matches any time on that calendar day, and `start_date`/`end_date` bound the day inclusively |
| Filters.DateFiltersIgnoreTimeOfDay | filters.py:103 | two approaches on the same calendar day get the same verdict from any date filter |
| Filters.DateFilterExample | filters.py:103 | `date=2020-01-01` matches 2020-01-01 13:45 and rejects 2020-01-02 00:01 |
| Filters.NumericBounds | filters.py:44-47 | the reference value is the right operand: `*_min` keeps values at or above it and `*_max` values at or below it |
| Filters.DiameterBounds | filters.py:159-170 | diameter bounds compare the linked NEO's diameter, and a NaN diameter satisfies no bound |
| Filters.BaseFilterUnsupported | filters.py:59-69 | calling the base filter raises `UnsupportedCriterionError` instead of answering false |
| Filters.NoArgumentsNoFilters | filters.py:196-272 | `create_filters()` with every argument `None` returns an empty list |
| Filters.NoCriteriaMatchEverything | filters.py:264-272 | with every criterion `None`, every approach matches |
| Filters.SingleCriterion | filters.py:264-272 | with only `distance_max` given, the result is that single filter |
| Filters.MaxDistanceOnly | filters.py:241-242 | with only `distance_max=x`, an approach matches exactly when its distance is at most x |
| Filters.MaxDistanceExample | filters.py:242 | `distance_max=0.5` keeps distances 0.3 and 0.5 and rejects 0.7 |
| Filters.SingleFilter | filters.py:3-5 | a collection of one filter matches exactly when that filter does |
| Filters.LimitFrom | filters.py:289-295 | the loop yields a prefix of the stream of length min(n - count, len(s)), or nothing once count reaches n |
| Filters.Limit | filters.py:276-295 | with n `None` or 0 the whole stream; with n > 0 exactly the first min(n, len(s)) items in order; with n < 0 nothing |
| Filters.LimitIdempotent | filters.py:276-295 | limiting twice to the same cap is the same as limiting once |
| Write.FieldnamesSpelling | write.py:28 | the seven columns are spelled `datetime_utc`, `distance_au`, `velocity_km_s`, `designation`, `name`, `diameter_km`, `potentially_hazardous`, in that order |
| Write.Merge | write.py:44 | the merged keys are the union, and each value comes from the right dictionary when it has the key, else from the left |
| Write.FieldnamesAreTheKeys | write.py:28 | the seven CSV columns are exactly the approach keys and the NEO keys together |
| Write.HazardText | write.py:46 | always `"True"` or `"False"`; `"True"` exactly for a true flag, `"False"` for `None` |
| Write.CsvContent | write.py:40-46 | fails with `AttributeError` exactly when no NEO is linked; otherwise its keys are the seven column names |
| Write.WriteRow | write.py:35-49 | the writer fails exactly on a key outside the columns; otherwise it writes one cell per column, in column order, and `""` for a column the dictionary lacks |
| Write.CsvContentValues | write.py:40-46 | `content` holds the approach's time, distance and velocity, the NEO's designation, name (`""` when missing) and diameter, and the hazard as `"True"`/`"False"` text |
| Write.WriteRowInColumnOrder | write.py:35-49 | a dictionary with exactly the seven column keys is written as its values in column order |
| Write.CsvRow | write.py:38-49 | a row exists exactly when a NEO is linked, and has seven cells; otherwise `AttributeError` |
| Write.Collect | write.py:38-41 | the results of f, one per approach in order, or the error f raised on the first approach where it failed |
| Write.CsvRows | write.py:38-49 | one row per approach, in stream order, when every approach is linked; otherwise `AttributeError` |
| Write.MergeKeepsBoth | write.py:44 | the approach and NEO key sets are disjoint, so the merged dictionary keeps every field of both unchanged |
| Write.CsvRowColumns | write.py:28-49 | the row is exactly time, distance, velocity, designation, name, diameter and hazard, in that order; a missing name or designation is `""`; the hazard is `"True"` exactly when the flag is `True`, else `"False"` |
| Write.CsvHazardIsText | write.py:46 | the CSV hazard cell is always the text `"True"` or `"False"` |
| Write.JsonRecord | write.py:67-80 | a record exists exactly when a NEO is linked; otherwise `AttributeError` |
| Write.JsonData | write.py:67-80 | one record per approach, in stream order, when every approach is linked; otherwise `AttributeError` |
| Write.JsonRecordShape | write.py:67-80 | a record holds the approach's three fields and, under `neo`, the NEO's whole serialized dictionary, with the hazardous flag still a boolean |
| Write.CsvJsonAgreeOnHazard | write.py:44-76 | the CSV hazard cell reads `"True"` exactly when the JSON record's nested flag is the boolean `True` |

## Left out

- File I/O is not modelled: `open`, `csv.DictReader`/`DictWriter` output, `json.load`/`json.dump`, and the default file names. extract.py is not part of this model either. Besides reading the files, it converts values before the constructors see them: an empty name becomes `None` (extract.py:35), the hazard flag becomes `pha == 'Y'` (extract.py:38), and distance and velocity go through `float` (extract.py:69-70). So in the running program `CloseApproach` always receives a float distance: unreadable distance text raises in the loader, whose `except` (extract.py:74-75) prints it, and `CoerceDistance`'s `ValueError` branch is not reached from there. The model states the constructors for any input they accept.
- The CSV header line and file contents are not modelled. The model gives the cells of each row. When an unlinked approach raises, the rows before it are already in the file; the model returns only the error.
- helpers.py is not part of this model:
  - A date-time is the record `DateTime`, taken as already read by `cd_to_datetime`.
  - The text `datetime_to_str` renders is the value `Stamp(t)`, and its format is not modelled.
  - `CloseApproach.serialize` tests `self.time` for truth before formatting it. A `datetime` is always true, so the `""` branch is not modelled.
- database.py is not part of this model. This leaves out linking approaches to NEOs, the designation and name indexes, and `query`. `MatchesAll` is only the "matches all criteria" reading of the filters module's description. `NearEarthObject.approaches` holds load-order positions and is only ever empty here.
- `limit`'s laziness is not modelled: only what it yields is. Its loop pulls one item past the cap before stopping.
- Floating point is not modelled:
  - Numbers are exact reals, and NaN is a separate value.
  - `__str__` and `__repr__` (with their `:.3f`/`:.2f` formatting) and `time_str` are not modelled.
  - Decimal.ParseFloat: reads only ASCII digits and ASCII white space. It does not accept exponents, `inf`, `nan`, digit-group underscores, non-ASCII decimal digits (`float('١٢')` is 12.0) or non-ASCII white space such as a no-break space (`float('\xa01')` is 1.0), all of which Python's `float` reads. Such text counts as unreadable. A diameter written that way becomes NaN rather than its value, and a distance written that way makes `CoerceDistance` fail with `ValueError` where Python returns a float. The data files do not use these forms.
- Models.NewApproach: stores the velocity as a real. The Python constructor stores whatever it is given without coercion.
- Filters.CreateFilters: takes typed criteria (dates, reals, a boolean) as the command line supplies them. The Python function accepts any value.
- Python truthiness and comparison are modelled only for the values that occur here: numbers, NaN, booleans, `None`, dates and serialized fields.

## Proof notes

`LimitFrom`, `FiltersFrom`, `MatchesAll` and `Collect` are recursive, and each needs its recursive call's contract. `Decimal.NatTextValue` and `Filters.FiltersFromCount` are proved by explicit induction.
