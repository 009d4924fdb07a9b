# Property search: query interpreter and filter engine

This project models the two pieces of logic in `tast.py`, a small Thai real-estate
search tool. It states their properties in Dafny and proves them.

- **Query interpreter** (`parse_query`). It lowercases a free-text query, walks its
  tokens, and fills a five-field record, with later tokens winning:
  - property type: บ้านเดี่ยว, คอนโด or ทาวน์โฮม;
  - bedroom count;
  - price ceiling;
  - location: นนทบุรี or กรุงเทพ;
  - status: reserved or available.
- **Filter engine** (the chain in `search_property`). It keeps the listing rows whose
  status equals the record's. Each further test runs only when its field of the record
  is truthy in Python's sense:
  - type, compared case-insensitively;
  - exact bedroom count;
  - price at most the ceiling;
  - location as a substring.

Modules:

- `Text` (text.dfy):
  - Python's `in` on strings, and ASCII `str.lower()`;
  - the `\d` and `\s` classes;
  - the value of a digit run.
- `Patterns` (patterns.dfy):
  - the bedroom pattern `(\d+)\s*ห้องนอน|(\d+)\s*bedroom`;
  - the price pattern `ไม่เกิน\s*(\d+(?:\.\d+)?)\s*ล้าน|under\s*(\d+(?:\.\d+)?)`.

  Each pattern is a deterministic scanner, proved equal to a declarative description
  of what a match is.

  - The bedroom scanner is proved in both directions.
  - For the price scanner, a value at a position comes from a match of one of the
    alternatives. Every match is found.
  - `LeftmostPrice` is `re.search`: it returns the first position with a match.
- `QueryInterpreter` (query.dfy):
  - `ParseQuery` is the loop of `parse_query`. It is a method with loop invariants,
    and it is proved to return `Interpret(Lower(query), tokens)`.
  - `Interpret` states field by field what the loop computes.
  - The lemmas beside them state what the record means.
- `FilterEngine` (search.dfy):
  - `Search` is the chain of filters over a `seq<Row>`.
  - `SearchProperty` composes the interpreter with the chain.
- `QueryScenarios` (scenarios.dfy): the record for concrete queries. Each one is
  derived from the general lemmas.

Behaviour worth knowing, all proved:

- **Price rule, status rule.** They read the whole query, but they sit inside the
  token loop. With no token neither fires.
- **ล้าน scaling.** ล้าน anywhere in the query multiplies the captured number by a
  million. This also applies when `under` matched.
- **ไม่เกิน without ล้าน.** ไม่เกิน followed by a number but no ล้าน sets no price
  unless `under` matches.
- **Bedroom rule.**
  - It looks at one token at a time. When `2` and `ห้องนอน` are separate tokens, no
    token matches, and the count stays unset.
  - The query in the input placeholder (tast.py:73) is written that way. With
    whitespace-separated tokens it yields no bedroom count: see
    `DetachedHouseWords`.
  - It yields 2 only when the count and the keyword form one token: see
    `DetachedHouseJoined`.
  - The count is the first digit run of the token, not the digits next to the
    keyword.
- **The digit search finds a match.** A token that matches the bedroom pattern always
  has a digit run, so `re.search(r"\d+", token)` is never `None` and its `.group()` call
  cannot fail (`BedroomPhraseHasNumber`). Two other failures are possible; see "Left out".
- **Zero is no constraint.** A bedroom count or price ceiling of 0 is falsy. It
  filters nothing, exactly like `None`.

## Model

| member | source | states |
|---|---|---|
| Text.ContainsIff | tast.py:27 | `w in s` holds exactly when `w` occurs at some index of `s` |
| Text.ContainsTransitive | tast.py:27 | a string containing `w` contains every substring of `w` |
| Text.LowerKeepsContains | tast.py:22 | a substring of the raw query survives lowering, lowered itself |
| Text.SkipDigits | tast.py:35 | returns the end of the maximal digit run starting at an index |
| Text.SpacesBefore | tast.py:34 | returns the start of the maximal whitespace run ending before an index |
| Text.FirstDigitFrom | tast.py:35 | returns the first digit at or after an index, with no digit before it; none only when there is no digit |
| Text.FirstNumberIsFirstRun | tast.py:35 | `re.search(r"\d+", s)` finds nothing exactly when `s` has no digit; otherwise its value is that of the leftmost maximal digit run |
| Patterns.BedroomSearchFromSound | tast.py:34 | a position the scanner accepts is a real match: digits, then whitespace, then ห้องนอน or bedroom |
| Patterns.BedroomSearchFromComplete | tast.py:34 | every match whose keyword starts at or after the scan start is found |
| Patterns.BedroomSearchIff | tast.py:34 | the scanner says yes exactly when the bedroom pattern matches somewhere in the token |
| Patterns.BedroomSearchNeedsKeyword | tast.py:34 | a match needs ห้องนอน or bedroom in the token |
| Patterns.BedroomPhraseHasNumber | tast.py:34-35 | a token matching the bedroom pattern has a digit, so the `\d+` search that follows cannot fail |
| Patterns.NumberAtIsLiteral | tast.py:39 | the greedy `\d+(?:\.\d+)?` match exists exactly when a digit starts there; it is a number literal that nothing can extend: no digit follows it, and a literal without a fraction is not followed by a point and a digit |
| Patterns.NumberAtSpan | tast.py:39 | a literal that cannot be extended is exactly the greedy match, with its value |
| Patterns.PriceAtSound | tast.py:39 | a value found at a position comes from a match of ไม่เกิน…ล้าน or of under… starting there |
| Patterns.AtMostMillionComplete | tast.py:39 | every match of ไม่เกิน, spaces, number, spaces, ล้าน is found, with its number |
| Patterns.UnderComplete | tast.py:39 | every greedy match of under, spaces, number is found, with its number |
| Patterns.LeftmostPriceIsFirst | tast.py:39 | `re.search` reports the first position with a match and its value; it finds none exactly when no position matches |
| Patterns.LeftmostPriceAt | tast.py:39 | conversely, a match with no match before it is the one reported |
| Patterns.PriceAtNeedsMarker | tast.py:38-39 | a match needs ไม่เกิน or under in the query, so the guard on line 38 never hides one |
| Patterns.PriceAtWithoutMillion | tast.py:39 | without ล้าน in the query only the under alternative can match |
| Patterns.PriceAtNeedsFirstLetter | tast.py:39 | a match can start only on the first letter of ไม่เกิน or under |
| QueryInterpreter.LastOfIsLast | tast.py:26-47 | a per-token field is set exactly when some token names a value, and then it holds the last such token's value |
| QueryInterpreter.LastOfIsLastSome | tast.py:26-47 | the last token naming a value decides the field |
| QueryInterpreter.LastOfExtend | tast.py:26 | one more token overwrites the field exactly when it names a value |
| QueryInterpreter.HouseCoversDetached | tast.py:27 | the บ้านเดี่ยว test is subsumed by the บ้าน test |
| QueryInterpreter.ApplyTypeRule | tast.py:27-32 | one token's type rule changes only the type, setting it to the token's type when it names one |
| QueryInterpreter.ApplyBedroomRule | tast.py:34-36 | one token's bedroom rule changes only the count, setting it when the token matches the pattern |
| QueryInterpreter.ApplyPriceRule | tast.py:38-42 | one pass of the price rule changes only the ceiling, setting it to the query's ceiling when there is one |
| QueryInterpreter.ApplyLocationRule | tast.py:44-47 | one token's location rule changes only the location, setting it when the token names one |
| QueryInterpreter.ParseQuery | tast.py:21-52 | the loop returns the record `Interpret` describes for the lowercased query and its tokens |
| QueryInterpreter.NoTokensGiveDefault | tast.py:24-26 | with no token the record is the default one, whatever the query says |
| QueryInterpreter.NoKeywordsGiveDefault | tast.py:24-50 | tokens naming no type, bedroom phrase or location, and a query without ไม่เกิน, under, reserved or จอง, give the default record |
| QueryInterpreter.PropertyTypeRange | tast.py:27-32 | the type is absent or one of บ้านเดี่ยว, คอนโด, ทาวน์โฮม |
| QueryInterpreter.LocationRange | tast.py:44-47 | the location is absent or one of นนทบุรี, กรุงเทพ |
| QueryInterpreter.PropertyTypeFromLastKeywordToken | tast.py:26-32 | the type comes from the last token naming one; inside it บ้าน beats คอนโด, which beats ทาวน์โฮม |
| QueryInterpreter.LocationFromLastKeywordToken | tast.py:44-47 | the location comes from the last token naming one; inside it นนทบุรี beats กรุงเทพ |
| QueryInterpreter.BedroomsFromLastPhraseToken | tast.py:34-36 | the count is set exactly when some token matches the bedroom pattern; it is the first digit run of the last such token |
| QueryInterpreter.PriceFromLeftmostMatch | tast.py:38-42 | the ceiling is set exactly when there is a token and the price pattern matches; it is the leftmost match's number, times a million exactly when ล้าน occurs anywhere |
| QueryInterpreter.AtMostNeedsMillion | tast.py:38-42 | without ล้าน and without under no ceiling is set |
| QueryInterpreter.StatusIff | tast.py:49-50 | the status is reserved exactly when there is a token and the query contains reserved or จอง; otherwise available |
| QueryInterpreter.UpperCaseReservedCounts | tast.py:22 | RESERVED in upper case in the raw query counts, because the query is lowered first |
| FilterEngine.WhereMembers | tast.py:58 | a boolean mask keeps a row exactly when it is in the frame and passes, and never adds rows |
| FilterEngine.WhereIsPassingSubsequence | tast.py:58 | a mask keeps the subsequence of passing rows, at increasing indices, each passing index listed |
| FilterEngine.WhereWhere | tast.py:58-67 | two masks in a row are one mask by the conjunction |
| FilterEngine.WhereSame | tast.py:58-67 | masks that agree on every row give the same frame |
| FilterEngine.WhereIdempotent | tast.py:58 | applying a mask twice is applying it once |
| FilterEngine.SearchIsOneFilter | tast.py:58-67 | the chain is one filter by the conjunction of the active tests |
| FilterEngine.SearchSoundComplete | tast.py:58-67 | a row is in the result exactly when it is in the table and passes status, and type, bedrooms, price and location where active |
| FilterEngine.SearchIsMatchingSubsequence | tast.py:58-69 | the result is the table's matching rows, in table order, every one of them |
| FilterEngine.SearchKeepsOrder | tast.py:58-69 | rows sorted in the table by any key, of any type and under any order relation, stay sorted that way in the result |
| FilterEngine.SearchIdempotent | tast.py:58-69 | searching the result again with the same record returns it unchanged |
| FilterEngine.DefaultKeepsAvailable | tast.py:58 | the default record keeps exactly the available rows |
| FilterEngine.ZeroIsNoConstraint | tast.py:62-65 | a bedroom count or ceiling of zero gives the same result as none |
| FilterEngine.BedroomsAreExact | tast.py:62-63 | the bedroom test is equality: a three-bedroom row fails a request for two |
| FilterEngine.LocationIsSubstring | tast.py:66-67 | the location test is a substring test: นนทบุรี-เมือง passes a request for นนทบุรี |
| FilterEngine.SearchProperty | tast.py:54-69 | the search returns the chain applied to the record of the lowercased query, so exactly the table's rows matching that record |
| QueryScenarios.CondoUnderReserved | tast.py:21-52 | คอนโด under 50000 จอง gives type คอนโด, no bedroom count, ceiling 50,000, no location, status reserved |
| QueryScenarios.CondoPrice | tast.py:38-42 | the ceiling of คอนโด under 50000 จอง is 50,000, unscaled |
| QueryScenarios.CondoType | tast.py:26-32 | of the tokens of คอนโด under 50000 จอง, the first names type คอนโด and no later one names a type |
| QueryScenarios.UnderFiftyThousand | tast.py:38-42 | under 50000 after a prefix where no match starts, with no ล้าน, gives a ceiling of 50,000 |
| QueryScenarios.AtMostThreeMillion | tast.py:38-42 | ไม่เกิน 3 ล้าน after a prefix where no match starts gives a ceiling of 3,000,000 |
| QueryScenarios.DetachedHouseWords | tast.py:21-52 | บ้านเดี่ยว 2 ห้องนอน ไม่เกิน 3 ล้าน ในนนทบุรี in separate words gives บ้านเดี่ยว, no bedroom count, 3,000,000, นนทบุรี, available |
| QueryScenarios.DetachedNoBedrooms | tast.py:34-36 | with 2 and ห้องนอน in separate tokens no token yields a bedroom count |
| QueryScenarios.DetachedHouseJoined | tast.py:21-52 | the same request with the token 2ห้องนอน also gives a bedroom count of 2 |
| QueryScenarios.TwoBedrooms | tast.py:34-36 | the token 2ห้องนอน matches the bedroom pattern and gives 2 |
| QueryScenarios.UnderScaledByMillion | tast.py:41 | under 3 ล้าน gives 3,000,000: ล้าน scales the under alternative too |
| QueryScenarios.AtMostWithoutMillion | tast.py:38-42 | ไม่เกิน 5 without ล้าน sets no ceiling |

## Left out

- `load_data` (tast.py:13-19) reads the table from Google Sheets over the network. The table is a parameter of `Search` and `SearchProperty` instead.
- The nltk downloads and `word_tokenize` (tast.py:5-11, 23) are not modelled. The token sequence is an input, meant to be the tokens of the lowercased query. The model does not tie the tokens to the query text.
- The gradio interface (tast.py:71-79) is presentation only.
- Python `float` parsing and rounding (tast.py:41) are not modelled. Captured amounts and the ×1,000,000 scaling are exact `real`s, built from the digits and the fraction.
- Unicode in `str.lower()`, `\d` and `\s` is not modelled. The model lowers ASCII letters only and reads ASCII digits only. Its `\s` is space, tab, newline, carriage return, vertical tab and form feed. Python also matches Thai digits and other Unicode spaces.
- pandas details are not modelled:
  - missing cells (NaN);
  - dtype coercion (bedrooms are compared as integers, prices as exact reals);
  - `str.contains` reading its argument as a regular expression, which cannot matter because both location names are plain letters;
  - the index renumbering of `reset_index`. The result is the sequence of rows, in order.
- QueryInterpreter.TokenBedrooms: the `ValueError` that `int(...)` at tast.py:36 raises on a digit run longer than 4300 digits is not modelled. That is CPython's limit on converting a string to an int, present in 3.11 and later and in the security releases of 3.8 to 3.10. The model returns the run's value however long it is.
- FilterEngine.Search: the `KeyError` that `df["status"]` at tast.py:58 raises when the sheet has no data rows is not modelled. `pd.DataFrame([])` then has no columns. The model returns the empty sequence for an empty table.
- Columns of a listing other than status, type, bedrooms, price and location are not modelled.
- `QueryScenarios` checks each query against one chosen tokenization: separate words, or the count joined to ห้องนอน. What nltk actually produces for these Thai queries is not modelled.
