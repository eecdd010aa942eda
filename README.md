# django-informixdb: connection wrapper and catalog introspection

This project models the core of `django_informixdb`, the Django database backend for
IBM Informix. It covers two parts of the backend and proves properties about both.

- **The connection wrapper** (`DatabaseWrapper`, `base.dfy`):
  - the static tables `data_types`, `data_type_check_constraints` and `operators`;
  - the constructor, which reads `OPTIONS`. It sets `encoding` and `collation`. Under a
    truthy collation it gives the instance a copy of the operator table in which every
    `LIKE` fragment carries a `COLLATE` clause;
  - `get_connection_params`. It validates the four required settings under either
    spelling, then builds the keyword arguments of the driver's `connect`.
- **The catalog reader** (`DatabaseIntrospection`, `introspection.dfy`). The rows the
  catalog queries return are the inputs. The model reshapes them as the code does:
  - `get_table_list`, `get_table_description` and `get_indexes`;
  - `_get_col_index`, `get_relations` and `get_constraints`;
  - the exceptions a failed lookup raises, modelled as `Result` values.

Support modules:

- `text.dfy`: the Python `str` operations the code relies on (`lower`, `upper`,
  `startswith`, `strip`, `split(sep)`, `split()[0]`).
- `rows.dfy`: two recurring loop shapes. `LastWins` is a dictionary filled row by row in
  which a later row overwrites an earlier one. `Collect` is a loop that stops with the
  error of the first row it cannot handle.
- `wrappers.dfy`: `Option` and `Result`.

## Model

| member | source | states |
|---|---|---|
| Base.Get | django_informixdb/base.py:107-111 | `d.get(key, default)`: the stored value when the key is present, the default otherwise |
| Base.Collate | django_informixdb/base.py:112-119 | the collated operator table has exactly the keys of the original |
| Base.CollateReversible | django_informixdb/base.py:112-119 | the collation rewrite loses nothing: removing the appended clause gives back the original table, for any table and any collation |
| Base.LikeLookupsOfOperators | django_informixdb/base.py:68-83 | in the backend's table, a fragment starts with `LIKE ` exactly for the eight pattern lookups (`contains` … `iregex`) |
| Base.CollateSplits | django_informixdb/base.py:115-119 | for any table whose `LIKE` fragments are those of a given set of lookups, the collation changes exactly those lookups, by appending the clause |
| Base.OperatorsUnderCollation | django_informixdb/base.py:68-83 | under collation `c`: the eight pattern lookups get ` COLLATE c` appended; every other lookup, e.g. `exact`, keeps its fragment; no key is added or lost |
| Base.LikeOverrides | django_informixdb/base.py:114-118 | the loop collects exactly the `LIKE` entries of the table, each with the `COLLATE` clause appended |
| Base.DatabaseWrapper.constructor | django_informixdb/base.py:105-119 | with a non-empty `OPTIONS`: `encoding` is set from it (default `'utf-8'`) and `collation` from it (default `None`). Without one, neither is set. The instance's operator table is the collated table exactly when the collation is truthy, otherwise the class table |
| Base.DatabaseWrapper.GetConnectionParams | django_informixdb/base.py:128-140 | the loop's result equals the intended specification `ConnectionParamsIntended`: `ImproperlyConfigured` for the first setting missing under both spellings, otherwise the keyword arguments |
| Base.ReportsFirstMissing | django_informixdb/base.py:130-133 | the error names the first of `name`, `server`, `user`, `password` that is set under neither spelling; the code as written and the intended reading agree on this |
| Base.ConnectionParamsSucceeds | django_informixdb/base.py:128-140 | the code as written succeeds exactly when the four upper-case keys are set. It then copies user and password, sets the DSN to `NAME@SERVER`, and sets `autocommit` to `AUTOCOMMIT` when present, `False` otherwise |
| Base.LowerCaseServerPassesValidationThenFails | django_informixdb/base.py:130-137 | as written, settings with `server` only in lower case (and `NAME`, `USER`, `PASSWORD` set, as Django always sets them) pass the validation, then raise `KeyError('SERVER')` |
| Base.ConnectionParamsIntended | django_informixdb/base.py:128-140 | reading each setting under the spelling that is present: success exactly when all four settings are present under some spelling; the only error left is `ImproperlyConfigured` |
| Base.DsnRoundTrip | django_informixdb/base.py:137 | with every setting present, the DSN splits at `@` back into database name and server when neither contains `@` |
| Base.IntendedAgreesOnUpperCase | django_informixdb/base.py:134-139 | where the upper-case keys are set, the intended reading gives the same result as the code as written |
| Text.Upper | django_informixdb/base.py:131 | `k.upper()`: same length, no lower-case letter left, equal to the input up to letter case |
| Text.Lower | django_informixdb/introspection.py:34 | `str.lower()`: same length, no upper-case letter left, equal to the input up to letter case |
| Text.LowerIdempotent | django_informixdb/introspection.py:34 | lower-casing twice is lower-casing once |
| Introspection.TableListKeepsRows | django_informixdb/introspection.py:32-34 | one entry per catalog row, in order. The name is unchanged. The type is the catalog's type up to letter case, with no upper-case letter left |
| Introspection.NullOk | django_informixdb/introspection.py:41 | `null_ok` as written: 0 or 1, and 0 exactly when `coltype > 256` |
| Introspection.CharNotNullReportedNullable | django_informixdb/introspection.py:41 | a CHAR NOT NULL column has `coltype` 256, and the test as written reports it nullable |
| Introspection.NullOkIntended | django_informixdb/introspection.py:41 | `null_ok` with the NOT NULL flag tested as `coltype >= 256`: 0 exactly for flagged columns |
| Introspection.TruncDiv256 | django_informixdb/introspection.py:46 | `int(x / 256)`: the quotient truncated toward zero, bounded on both sides |
| Introspection.DecimalPrecisionScale | django_informixdb/introspection.py:45-47 | precision and scale rebuild `collength` as `precision * 256 + scale`; for a non-negative length the scale is a byte and the precision non-negative |
| Introspection.DecimalRoundTrip | django_informixdb/introspection.py:45-47 | unpacking a packed `precision * 256 + scale` gives both back |
| Introspection.Describe | django_informixdb/introspection.py:41-48 | for one column: name and internal size copied, no display size; `type_code` is `coltype` without the NOT NULL flag (0..255); `null_ok` is 0 exactly when the flag is set, by the corrected test `coltype >= 256` of the second Findings row (the code as written tests `coltype > 256`); for DECIMAL and NUMERIC, precision and scale unpack `collength`; otherwise precision is `collength` and there is no scale |
| Introspection.DescribeDecodesColtype | django_informixdb/introspection.py:41 | for any base type and NOT NULL flag packed into `coltype`, the description gives back both |
| Introspection.GetTableDescription | django_informixdb/introspection.py:36-49 | the loop gives one description per row, in row order, each equal to `Describe` of the row, so `null_ok` follows the corrected test of the second Findings row |
| Introspection.IndexFlags | django_informixdb/introspection.py:82-85 | `primary_key` exactly when the constraint type is `'P'`; `unique` exactly when the index type is `'U'` |
| Introspection.GetIndexes | django_informixdb/introspection.py:70-86 | the keys are exactly the rows' column names; each column's flags come from the last row for that column |
| Introspection.ColIndex | django_informixdb/introspection.py:88-95 | the keys are exactly the column names; each name maps to its column number minus one, from the last row with that name |
| Introspection.RelationEntrySpec | django_informixdb/introspection.py:105-108 | one round succeeds exactly when both column lookups do; it then pairs the local index with the referenced index and table |
| Introspection.RelationEntries | django_informixdb/introspection.py:104-108 | the loop gets through every row exactly when every row's lookups succeed; the entries are then the rows' index pairs, in order |
| Introspection.GetRelations | django_informixdb/introspection.py:97-109 | the loop returns what `Relations` specifies: the `KeyError` of the first failed lookup, or the dictionary of the entries |
| Introspection.RelationsSpec | django_informixdb/introspection.py:97-109 | success exactly when every lookup succeeds. The keys are then exactly the rows' local column indexes. Each index maps to the referenced index and table of the last row with that local index |
| Text.Split | django_informixdb/introspection.py:125 | `str.split(',')`: at least one part, no part holds the separator, and joining the parts rebuilds the text |
| Text.SplitJoin | django_informixdb/introspection.py:125 | splitting a join of separator-free parts gives the parts back |
| Text.TrimStart | django_informixdb/introspection.py:125 | `lstrip()`: a suffix of the input that does not start with whitespace |
| Text.TrimStartCutsSpace | django_informixdb/introspection.py:125 | `lstrip()` cuts off whitespace only |
| Text.TrimEnd | django_informixdb/introspection.py:125 | `rstrip()`: a prefix of the input that does not end with whitespace |
| Text.TrimEndCutsSpace | django_informixdb/introspection.py:125 | `rstrip()` cuts off whitespace only |
| Text.StripIsSlice | django_informixdb/introspection.py:125 | `strip()` is the slice of the input that starts where the leading whitespace ends |
| Text.StripCutsSpace | django_informixdb/introspection.py:125 | `strip()` cuts off only whitespace, on either side |
| Text.StripEnds | django_informixdb/introspection.py:125 | `strip()` neither starts nor ends with whitespace |
| Text.Word | django_informixdb/introspection.py:125 | the first run of a text is a prefix of it |
| Text.WordIsRun | django_informixdb/introspection.py:125 | that prefix holds no whitespace, and whitespace or the end of the text follows it |
| Text.FirstField | django_informixdb/introspection.py:125 | `split()[0]` has no value exactly when the text is all whitespace |
| Text.FirstFieldPosition | django_informixdb/introspection.py:125 | the first field starts where the leading whitespace ends |
| Text.FirstFieldIsRun | django_informixdb/introspection.py:125 | the first field is a maximal run of non-whitespace characters: non-empty, no whitespace inside, and whitespace or the end of the text after it |
| Text.StripKeepsFirstField | django_informixdb/introspection.py:125 | `s.strip().split()[0]` is `s.split()[0]` |
| Introspection.KeyColumnOfPart | django_informixdb/introspection.py:125 | one part resolves exactly when its first token names a known column, and then to that column |
| Introspection.PartsSpec | django_informixdb/introspection.py:125 | a list of parts resolves exactly when every part's first token names a known column, and then to those columns in order |
| Introspection.KeyColumnsSpec | django_informixdb/introspection.py:125 | `columns` succeeds exactly when every comma-separated part of `indexkeys` names a known column; it then holds one column per part, in order |
| Introspection.ParseIndexKeys | django_informixdb/introspection.py:123-125 | an `indexkeys` text written as comma-separated parts, each starting with a known token, parses back to those tokens' columns |
| Introspection.GetConstraints | django_informixdb/introspection.py:111-134 | the loop returns what `Constraints` specifies: the error of the first row whose keys do not parse, or the dictionary of the records |
| Introspection.ConstraintsSpec | django_informixdb/introspection.py:122-133 | success exactly when every row's keys parse. The keys are then exactly the index names. For each name, the record of its last row holds: the parsed columns; `unique` for type `'U'`; `primary_key` for type `'U'` with one column; `index` for type `'D'`; no foreign key; `check` set |
| Rows.LastWins | django_informixdb/introspection.py:80-85 | a dictionary filled in a loop has exactly the keys that occur |
| Rows.LastWinsSnoc | django_informixdb/introspection.py:81-85 | one more loop round is one more assignment |
| Rows.LastWinsAt | django_informixdb/introspection.py:81-85 | a key is bound to the value of its last occurrence |
| Rows.LastWinsAll | django_informixdb/introspection.py:81-85 | every key's last occurrence gives its binding |
| Rows.LastWinsFrom | django_informixdb/introspection.py:81-85 | every binding comes from the last row with that key |
| Rows.CollectSuccess | django_informixdb/introspection.py:104-108 | a loop that raises on a bad row gets through exactly when every row succeeds; the results are then all rows' results, in order |
| Rows.CollectFailure | django_informixdb/introspection.py:104-108 | a failing loop reports the error of a row before which every row succeeded |
| Rows.CollectFirstFailure | django_informixdb/base.py:130-133 | the error reported is the one of the first failing row |

## Left out

- The driver and the SQL round trips are not modelled. This covers connecting, cursors,
  `execute`/`fetchall`, `get_new_connection`, `create_cursor`, `_set_autocommit`,
  `check_constraints` and the query text. Each operation takes the rows its query would
  return as input.
- `get_key_columns` is only a query. Its rows are the input of `GetRelations`.
- `_get_col_index` runs its query once per table and per row. Here a `catalog` map gives
  each table's rows, so the model assumes the catalog does not change between those
  queries.
- The helper objects the constructor creates (`features`, `ops`, `creation`,
  `introspection`, `validation`) are not modelled. `datatypes.py`,
  `operations.py`, `features.py` and `schema.py` are not part of this model.
  `SQL_TYPE_NUMERIC` and `SQL_TYPE_DECIMAL` are parameters (`sqlNumeric`,
  `sqlDecimal`), and `data_types_reverse` is not modelled.
- `pattern_esc` and `pattern_ops` are constants that no modelled operation uses.
- Introspection.GetConstraints: the token-to-column map is a parameter, `columnOf`. As
  written, the code builds it by calling `_get_col_index()` without its cursor and table
  arguments, which raises `TypeError` before any row is read. The reversed map would
  also be keyed by integer positions, while the tokens looked up are strings. The model
  covers the parsing of `indexkeys` and the shape of the records, given a map from
  tokens to column names.
- Base.DatabaseWrapper.constructor: `settings_dict` is shared with the caller in
  Python. The model copies it, so aliasing is not captured. The superclass constructor is
  not modelled.
- Settings values are `None`, `bool` or `str` only. `OPTIONS` is held separately as a
  dictionary of such values (or absent).
- Text.Lower and Text.Upper: only ASCII letters change case. Python's full Unicode case
  mapping is not modelled.
- Introspection.TruncDiv256: exact integer truncation. Python divides in floating point
  first, which differs only for lengths beyond 2^53.
- Introspection.Describe: `null_ok` follows the corrected NOT NULL test `coltype >= 256`
  (`NullOkIntended`), not the code's `coltype > 256` (`NullOk`). The two differ only at
  `coltype` 256, a CHAR NOT NULL column, where the code reports 1 and the model 0.
  `GetTableDescription` inherits this.
- Dictionary iteration order is not modelled. The collation loop walks the keys in any
  order, which does not change its result. The dictionaries `get_indexes`,
  `get_relations` and `get_constraints` return keep first-insertion order in Python; the
  model's `map`s give their keys and values but no order.

## Findings

| source | as written | input that shows it | evidently intended | confidence | as-written member | corrected member |
|---|---|---|---|---|---|---|
| django_informixdb/base.py:130-137 | the validation accepts each setting under its lower-case or upper-case key, then reads only the upper-case key | settings `{'NAME': 'db', 'server': 'srv', 'USER': '', 'PASSWORD': ''}` (Django always sets `NAME`, `USER` and `PASSWORD`, default `''`) pass the validation, then raise `KeyError('SERVER')` | read each setting under the spelling the validation accepted | medium, not executed | Base.LowerCaseServerPassesValidationThenFails | Base.ConnectionParamsIntended |
| django_informixdb/introspection.py:41 | `null_ok` is 0 only when `coltype > 256` | a CHAR NOT NULL column (base type 0, `coltype` 256) is reported nullable | test the NOT NULL flag with `coltype >= 256` | high, not executed | Introspection.CharNotNullReportedNullable | Introspection.DescribeDecodesColtype |
