# Sales-agent leaderboard: a Dafny model of `Ranqueamento.py`

The dashboard reads a payload of real-estate reservations (reservation key →
nested record), flattens it into rows while skipping one hard-coded agent,
keeps the sales made after 2022-01-01, optionally restricts them to one
project, sums the contract values per agent, sorts the agents by total
(highest first), abbreviates their names for display, colours the leader,
and shows the ranking ten entries per page, with "previous"/"next" and
project buttons that update a per-session page and filter. A progress bar is
coloured red, yellow or green against two sales goals.

The model follows the file component by component, one module each:

- `Text` (`text.dfy`): Python's whitespace `str.split()`, `' '.join`, and
  the per-character case mapping behind `str.capitalize()`.
- `Names` (`names.dfy`): `normalizar_nome`, `diminuir_name` (an imperative
  method over an array of tokens that the loop overwrites in place, proved
  against the function `Shortened`), `processar_name`.
- `Records` (`records.dfy`): the payload and row types, `process_data` (an
  imperative method that appends one row per entry, proved against
  `Extract`), the date cut-off of `main`, the sales total.
- `Ranking` (`ranking.dfy`): `filter_by_empreendimento`, the group-by/sum,
  the sort, the display names and colour list of `prepare_data`, and
  `calcular_primeiro_lugar`.
- `Paging` (`paging.dfy`): `select_data`, the page count, and a class
  `PageState` with fields `page` and `project` whose methods `Prev`, `Next`
  and `SetFilter` are the button handlers of `display_page_buttons` and
  `display_empreendimento_buttons`.
- `Goals` (`goals.dfy`): the colour band of the sales-progress bar.
- `Dashboard` (`dashboard.dfy`): the data path of `main`.
- `Seqs`, `Wrappers`: order-preserving filtering, `Option` and `Result`.

Representation choices. The payload dictionary is a sequence of
`(key, record)` pairs in the dictionary's order; a nested field the payload
lacks is `None`, and reading it yields `KeyError(key)` as the code's
subscripts do. Money is an `int` number of cents (the code casts it to
float); dates are day numbers of the proleptic Gregorian calendar
(2022-01-01 is day 738156). The session filter and the page, which the
code reads from `st.session_state`, are parameters of `PrepareData` and
`SelectData`.

The model follows the code, also where it departs from the system's intended
design:

- The page count is `(n + 9) / 10`, which is 0 for an empty ranking (the
  dashboard's intended design calls for at least 1). The page buttons are never shown for an
  empty ranking, so `Next` keeps the page in range only for a non-empty one.
- Agents are grouped by the raw name; display names are made afterwards, so
  `"maria silva"` and `"MARIA SILVA"` are two entries that both display as
  `"Maria Silva"`.
- The excluded agent is matched by the exact raw string only, so a variant
  spelling such as `"EVANDRO RODRIGUES DA SILVA"` is kept, ranked and
  displayed as `"Evandro Rodrigues Da Silva"`.
- The sort is the library's default, which is not stable: no order among
  equal totals is promised (the intended design calls for one tie-break).
- A record missing a key aborts the whole extraction with the first missing
  key in payload order; an entry of the excluded agent is skipped before any
  field after the agent's name is read, so it never fails.
- Shortening a name compares the length of the name as given for the first
  abbreviation, so a name padded with extra spaces gets its second token
  abbreviated even when its single-spaced form would fit. An abbreviated
  one-letter token grows (`"A"` becomes `"A."`), so shortening does not
  always shorten.

## Model

| member | source | states |
|---|---|---|
| `Text.Words` | Ranqueamento.py:64 | `split()` yields only non-empty tokens free of whitespace (its defining equations are the two lemmas below) |
| `Text.WordsOfSpaces` | Ranqueamento.py:64 | a string of whitespace only splits into no tokens |
| `Text.WordsStep` | Ranqueamento.py:64 | leading whitespace is skipped and the next token is the maximal non-space run that follows it: `sp + w + t` splits into `w` followed by the tokens of `t` |
| `Text.WordsOfJoin` | Ranqueamento.py:75 | splitting the single-space join of tokens gives the same tokens back |
| `Names.NormalizeTokens` | Ranqueamento.py:63-64 | the tokens of a normalised name are the input's tokens, each capitalised (first character upper-case, the rest lower-case), and the name is their single-space join with no other whitespace |
| `Names.NormalizeIdempotent` | Ranqueamento.py:63-64 | normalising a normalised name changes nothing |
| `Names.Shorten` | Ranqueamento.py:66-77 | the loop over the token array returns what `Shortened` specifies |
| `Names.ShortenedShape` | Ranqueamento.py:66-77 | a name within budget or with fewer than three tokens is returned unchanged; otherwise the result is the tokens with interior positions 1..k-1 abbreviated (a left-to-right prefix), every abbreviation but the last was needed, and the result fits or has every interior token abbreviated |
| `Names.AbbreviatedUpToAt` | Ranqueamento.py:70-74 | the first and last tokens are never altered; an altered token becomes its first character and a period; tokens past the prefix are unaltered |
| `Names.ShortenedIdempotent` | Ranqueamento.py:66-77 | shortening an already shortened name, with the same budget, changes nothing |
| `Names.NormalizeOfShortened` | Ranqueamento.py:87-90 | shortening a normalised name keeps it normalised |
| `Names.ProcessNameIdempotent` | Ranqueamento.py:87-90 | the display name is a fixed point of `processar_name` |
| `Records.RowOf` | Ranqueamento.py:35-54 | an entry is skipped exactly when its agent is the excluded one, and fails exactly when it is not excluded and one of the nine fields read is missing; a row made carries the entry's key as `reserva` and the entry's agent name, id, agency, project, contract value and sale date, and its agent is not the excluded one |
| `Records.ProcessData` | Ranqueamento.py:29-57 | the append loop returns what `Extract` specifies |
| `Records.ExtractSpec` | Ranqueamento.py:33-57 | extraction succeeds exactly when no entry lacks a key, otherwise fails with the first failing entry's error; on success there is one row per non-excluded entry, in payload order, each with that entry's key, and no row of the excluded agent |
| `Records.SinceCutoffSpec` | Ranqueamento.py:407 | the cut-off keeps exactly the rows sold after 2022-01-01, with their multiplicities, as an order-preserving subsequence |
| `Records.SinceCutoffIgnoresEarlySale` | Ranqueamento.py:407 | inserting a sale dated on or before the cut-off anywhere among the rows changes nothing after the cut-off |
| `Ranking.FilterByProject` | Ranqueamento.py:80-85 | `TOTAL` keeps every row; `BE GARDEN` keeps exactly the rows of `BE GARDEN KAÁ SQUARE`; any other value keeps exactly the rows whose project equals it; the result is always an order-preserving subsequence |
| `Ranking.AddToAgents` | Ranqueamento.py:104 | adding a row to the per-agent sums keeps the agents distinct and adds the row's agent if it is new |
| `Ranking.AddToTotals` | Ranqueamento.py:104 | adding a row raises the row's agent's sum by the row's value and leaves every other agent's sum as it was |
| `Ranking.AddToSum` | Ranqueamento.py:104 | adding a row raises the sum of all the per-agent sums by the row's value |
| `Ranking.GroupSpec` | Ranqueamento.py:104 | the group-by has one entry per distinct raw agent name, the lookup of each agent gives the sum of that agent's values, and the sums add up to the rows' total |
| `Ranking.SortByTotalPermutes` | Ranqueamento.py:105 | the sort yields totals in non-increasing order and a permutation of its input |
| `Ranking.SortByTotalKeepsAgents` | Ranqueamento.py:105 | the sort keeps the set of agents, their distinctness and the sum of the totals |
| `Ranking.RawRankingSpec` | Ranqueamento.py:101-105 | the sorted group-by has one entry per distinct raw agent name of the rows, each total the sum of that agent's contract values, totals non-increasing, summing to the rows' total |
| `Ranking.Colors` | Ranqueamento.py:111-114 | the first colour is the highlight colour and every later one the default colour; the list is as long as the ranking, but has length 1 for an empty ranking |
| `Ranking.PrepareDataSpec` | Ranqueamento.py:93-117 | the displayed ranking has one entry per distinct raw agent of the selected rows, the `processar_name` form of its name and its total, is sorted highest first, sums to the selected rows' total, and comes with the colours above and the active filter |
| `Ranking.FirstPlaceSpec` | Ranqueamento.py:119-124 | a leader is reported exactly when some row survives the project filter, and it is the display name of an agent whose total is at least every other agent's |
| `Paging.Slice` | Ranqueamento.py:139-142 | Python slicing with non-negative bounds: clamped to the length, empty past the end, element j is element lo+j |
| `Paging.SelectDataSpec` | Ranqueamento.py:126-144 | a page holds entries 10p..10p+9 of the ranking (fewer on the last page) and the colours of the same positions; it is empty exactly when p is at least the page count; the highlight colour is on the first entry of page 0 only |
| `Paging.TotalPagesIsCeiling` | Ranqueamento.py:231 | the page count is the ceiling of n/10 |
| `Paging.PagesCover` | Ranqueamento.py:133-142 | the pages, concatenated in order, are the whole ranking |
| `Paging.PageState.constructor` | Ranqueamento.py:11-12 | a session starts on page 0 with every project selected |
| `Paging.PageState.Prev` | Ranqueamento.py:238-240 | the button acts exactly when the page is not 0, then moves back one page; the filter is unchanged; a page in range stays in range |
| `Paging.PageState.Next` | Ranqueamento.py:243-245 | the button acts exactly when the page is not the last (`total_pages - 1`), then moves forward one page; the filter is unchanged; for a non-empty ranking, a page in range stays in range |
| `Paging.PageState.SetFilter` | Ranqueamento.py:329-334 | a project button selects its project and resets the page to 0 |
| `Goals.BarColorBands` | Ranqueamento.py:276-281 | with ordered goals the colours are the bands below the first goal, between the goals, and from the second goal on; more sales never give a lower colour |
| `Goals.SalesBarColorBands` | Ranqueamento.py:323 | the dashboard's bar is red below 30 million, yellow up to 60 million and green from there |
| `Dashboard.RankedRowsSpec` | Ranqueamento.py:403-409 | every row behind a ranking was sold after the cut-off and is not the excluded agent's, so that agent never appears in a ranking |

## Left out

- `fetch_data` and its memoisation: network I/O through an HTTP library; the model starts from the fetched payload, `None` standing for a non-200 response.
- The Streamlit layer (columns, buttons, markdown, reruns, secrets): only the page and filter transitions are kept, as `PageState`; each method is one click handled by one rerun.
- Plotting (`create_plot`, `customize_plot`, `create_meta_plot` apart from the colour choice, `customize_meta_plot`, the float axis limits): presentation calls into plotting libraries.
- `get_base64_of_bin_file`, `set_png_as_page_bg`: file I/O and a library Base64 encoder.
- `exibir_graficos`, `display_corretor_ranking`, `display_meta_vendas`: rendering; their logic is covered by `FirstPlace`, `SelectData`, `TotalSales` and `SalesBarColor`.
- pandas mechanics: `astype` (including the error it raises on a frame with no columns, which is what an all-excluded payload produces), date parsing (dates are day numbers, so a time of day on 2022-01-01 is not modelled), float contract values (modelled as integer cents).
- `Text.Upper`, `Text.Lower`: case mapping covers ASCII and the Latin-1 letter pairs; other characters (such as `ß`, `ÿ`, `µ` and letters beyond Latin-1) are left unchanged, while Python maps them.
- The group-by of pandas sorts the agent names; the later sort reorders the groups, and since no order among equal totals is promised, that key order is not modelled.
- Uniqueness of the payload's keys is not assumed or used.
- JSON `null`: every payload value is taken to have its expected JSON type, and a present-but-null value is not modelled. In the code a null agent name passes the exclusion test at Ranqueamento.py:38, is dropped by the group-by at :104 but still counted in the total sales at :359; a null nested object raises a `TypeError` at :36-45; a null sale date becomes `NaT`, which the cut-off query at :407 drops.
