# Document-to-row schema core of halley, in Dafny

halley copies MongoDB collections into PostgreSQL tables. Its schema core,
`src/utils/Schema.js`, turns one MongoDB document into one PostgreSQL row
and builds the DDL and statement fragments for the target table. This
project models that file and proves what it promises.

- **DDL and statement builders** (`Schema`). `ColumnNames`, `Placeholders`
  and `TableBody` are the loops of `getColumnNames`, `getPlaceholders` and
  `getTableBody`. They build a list one element at a time and are proved
  against their specifications:
  - quoted names in schema order, then the bare `_extra_props`;
  - `$1 … $k` with no gap;
  - the column clauses, the optional catch-all clause, and exactly one final
    `PRIMARY KEY (…)` clause, joined by commas.
- **Value coercion** (`ValueCoercer`). `Coerce` is the `switch (typeof
  source)` for one column. `Row` is the whole row the generator yields.
  `TransformValues` is the `for … of` loop, proved to yield `Row`. A source is
  found with `Get`, a dotted-path lookup (`Document`).
- **Nested encoding** (`StructuredEncoder`). `JSON.stringify(v,
  transformObjectValue)` is split in two. `Replace` is the JSON tree that the
  replacer produces: ObjectIds become `{"$oid": hex}` and strings are
  sanitised. Turning that tree into text belongs to the JSON library.
- **Text rows** (`Strings`, `TextRow`). `Sanitize` replaces each NUL with a
  space. `Escape` puts a backslash before `\`, newline, CR and tab.
  `ToTextFormat` is the loop that builds one line in the text format of
  PostgreSQL's `COPY` command. A decoder (`DecodeLine`) reads such a line
  back, and `TextLineRoundTrip` proves that decoding gives back every value.
- `Scenarios` works through three example documents, from document to text
  line: an ObjectId with a truncated integer, a missing path written as
  `\N`, and a one-column note holding a NUL and a tab.
- NUL-freedom, the reason `sanitizeString` exists, is proved for a whole row
  and a whole text line (`RowNoNul`, `LineNoNul`).

Some things the file calls are outside it. They are fields of the
`ValueCoercer.Library` value passed to the coercer and the encoders:
- `stringify`: the JSON text `JSON.stringify` writes for a tree that the
  replacer has already processed;
- `omit`: the `./omit` helper;
- `numText`: JavaScript's rendering of a number as text.

Numbers are `real`s.

## Model

| member | source | states |
|---|---|---|
| `Strings.Sanitize` | src/utils/Schema.js:102-105 | The result is as long as the input. Each NUL becomes a space and every other character stays as it is. |
| `Strings.SanitizeNoNul` | src/utils/Schema.js:97-105 | A sanitised string contains no NUL. |
| `Strings.SanitizeIdempotent` | src/utils/Schema.js:102-105 | Sanitising twice is the same as sanitising once. |
| `Strings.SanitizeFixpoint` | src/utils/Schema.js:102-105 | A string is unchanged by sanitising exactly when it contains no NUL. |
| `Strings.Split` | src/utils/Schema.js:43 | A source path splits into at least one segment, and no segment contains a dot. |
| `Strings.JoinSplit` | src/utils/Schema.js:43 | Joining the segments of a path with dots gives the path back. |
| `Strings.NatText` | src/utils/Schema.js:21 | The text of a placeholder number is a non-empty run of decimal digits with no leading zero. |
| `Strings.ParseNatText` | src/utils/Schema.js:21 | Reading the digits back gives the number. |
| `Strings.NatTextInjective` | src/utils/Schema.js:21-23 | Different numbers never have the same text. |
| `Document.Field` | src/utils/Schema.js:43 | A key lookup in an object is absent exactly when no member has that key. Otherwise it is the value of the first member with that key. |
| `Document.GetInAppend` | src/utils/Schema.js:43 | Looking up the path `p` followed by `q` is looking up `p` and then `q` inside what was found. |
| `Document.HexIdIsClean` | src/utils/Schema.js:86-92 | Sanitising leaves a canonical 24-digit hex ObjectId text unchanged. |
| `StructuredEncoder.ReplaceAt` | src/utils/Schema.js:85-95 | The replacer works at every depth. Whatever node a document holds at a position, the encoded tree holds that node's encoding at the same position. |
| `StructuredEncoder.ObjectIdEncodedAt` | src/utils/Schema.js:86-90 | An ObjectId at any position is encoded as `{"$oid": hex}`, with the hex sanitised. A canonical hex text is kept as it is. |
| `StructuredEncoder.StringEncodedAt` | src/utils/Schema.js:91-92 | A string at any position is encoded as the sanitised string. |
| `StructuredEncoder.ReplaceClean` | src/utils/Schema.js:85-95 | No string value anywhere in the encoded tree contains a NUL. Member keys are copied as they are. |
| `StructuredEncoder.ReplaceIsStandard` | src/utils/Schema.js:85-95 | The replacer changes nothing exactly when the document has no ObjectId and no string with a NUL. Everything else keeps its default encoding. |
| `Schema.Quote` | src/utils/Schema.js:10 | A column identifier is the name between two double quotes. |
| `Schema.QuotedIsNotCatchAll` | src/utils/Schema.js:10-12 | A quoted column name is never the catch-all name `_extra_props`. |
| `Schema.ColumnNames` | src/utils/Schema.js:7-16 | One name per column plus one for `extraProps`. Name `i` is column `i`'s quoted name, and the catch-all name comes last. |
| `Schema.Placeholder` | src/utils/Schema.js:21 | Placeholder `i` is `$` followed by digits that read back as `i + 1`. |
| `Schema.PlaceholderInjective` | src/utils/Schema.js:21-23 | Two positions never share a placeholder. |
| `Schema.Placeholders` | src/utils/Schema.js:18-27 | The list is as long as the column-name list, and entry `i` is `$(i+1)`. So it runs `$1..$k` with no gap. |
| `Schema.TableClauses` | src/utils/Schema.js:29-34 | There is one clause per column in order, then the `_extra_props <type>` clause when configured, then the `PRIMARY KEY (…)` clause. As a convenience, no earlier clause starts with `P`, so the body has exactly one clause beginning `PRIMARY KEY`. |
| `Schema.TableBody` | src/utils/Schema.js:29-37 | The table body is those clauses joined by commas. |
| `ValueCoercer.Trunc` | src/utils/Schema.js:64 | Truncation moves toward zero by less than one: `r <= x < r + 1` for `x >= 0`, and `r - 1 < x <= r` for `x < 0`. |
| `ValueCoercer.TruncExamples` | src/utils/Schema.js:64 | 3.9 truncates to 3 and -3.9 truncates to -3. |
| `ValueCoercer.Row` | src/utils/Schema.js:39-83 | A row has one value per column, plus one more when `extraProps` is set. |
| `ValueCoercer.TransformValues` | src/utils/Schema.js:39-83 | The loop yields exactly `Row`. |
| `ValueCoercer.RowColumn` | src/utils/Schema.js:42-77 | Value `i` is the coercion of what column `i`'s source path finds in the document. |
| `ValueCoercer.RowExtra` | src/utils/Schema.js:79-82 | With `extraProps`, the value after the columns is the JSON of the document. When `omit` is set, it is the JSON of what `omit` leaves. |
| `ValueCoercer.CoerceNull` | src/utils/Schema.js:47-61 | A column yields null exactly when its source is absent or null. |
| `ValueCoercer.CoerceNumber` | src/utils/Schema.js:62-68 | A number in a `smallint`, `integer` or `bigint` column yields a whole number, truncated toward zero. In any other column the number is passed through. |
| `ValueCoercer.CoerceScalars` | src/utils/Schema.js:47-74 | An ObjectId yields its hex text and a Decimal128 its decimal text. A string yields its sanitised form, and a boolean is passed through. Any other object or array yields the JSON text of its replaced tree. |
| `ValueCoercer.CoerceTextNoNul` | src/utils/Schema.js:51-71 | Text from a string source, from a canonical ObjectId or from a NUL-free decimal never contains a NUL. |
| `Document.GetInCanonical` | src/utils/Schema.js:43 | Whatever a lookup finds inside a canonical document (canonical ObjectId hex, NUL-free decimal text) is itself canonical. |
| `ValueCoercer.CoerceNoNul` | src/utils/Schema.js:47-74 | Any text a column yields from a canonical source holds no NUL, given JSON text without a raw NUL. |
| `ValueCoercer.RowNoNul` | src/utils/Schema.js:39-83 | No text value in a canonical document's row holds a NUL. |
| `TextRow.Escape` | src/utils/Schema.js:107-109 | Escaping adds exactly one character per backslash, newline, CR or tab. |
| `TextRow.UnescapeEscape` | src/utils/Schema.js:107-109 | Dropping each escaping backslash gives the input back. |
| `TextRow.EscapeFixpoint` | src/utils/Schema.js:107-109 | A string is unchanged by escaping exactly when it contains none of the four characters. |
| `TextRow.EscapeNotIdempotent` | src/utils/Schema.js:107-109 | Escaping an already escaped string changes it again, so escaping must happen exactly once. |
| `TextRow.EscapeFieldSafe` | src/utils/Schema.js:107-109 | An escaped string contains no unescaped tab, newline or CR, and no trailing lone backslash. |
| `TextRow.EscapeIsNotNull` | src/utils/Schema.js:115-118 | No escaped string is the null marker `\N`. |
| `TextRow.EscapeExcludes` | src/utils/Schema.js:107-109 | Escaping adds only backslashes: any other character missing from the input is missing from the output. |
| `TextRow.PlainTextRaw` | src/utils/Schema.js:119-120 | Text without special characters, such as a rendered number or boolean, reads back as itself and is never `\N`. |
| `TextRow.ToTextFormat` | src/utils/Schema.js:111-125 | The loop writes the row's fields, separated by tabs and ended by a newline. A null is written `\N`, a string escaped, and a number or boolean as its text. |
| `TextRow.SplitJoin` | src/utils/Schema.js:124 | Fields with no unescaped separators, joined by tabs, split back into exactly those fields. |
| `TextRow.FieldTextDecodes` | src/utils/Schema.js:114-122 | Each written field decodes back to its value: null for `\N`, otherwise the value's text. |
| `TextRow.TextLineRoundTrip` | src/utils/Schema.js:111-125 | Decoding a non-empty row's line gives one field per value, in order: null for a null value, otherwise the value's text. |
| `TextRow.DocumentLineRoundTrip` | src/utils/Schema.js:111-125 | The text line for a document decodes back to the document's coerced row. |
| `TextRow.LineNoNul` | src/utils/Schema.js:97-125 | The whole text line of a canonical document holds no NUL, given number and JSON texts without one. |
| `Scenarios.IdentifierAndTruncatedAgeRow` | src/utils/Schema.js:42-77 | Columns `id ← _id` (text) and `age ← profile.age` (integer) on `{_id: ObjectId, profile: {age: 30.7}}` yield `[hex, 30]`. |
| `Scenarios.IdentifierAndTruncatedAgeLine` | src/utils/Schema.js:111-125 | The line for that document is `<hex>\t30\n`. |
| `Scenarios.MissingAgeRow` | src/utils/Schema.js:42-77 | When `profile.age` is missing, the row is `[hex, null]`. |
| `Scenarios.MissingAgeLine` | src/utils/Schema.js:111-125 | The line for that document is `<hex>\t\N\n`. |
| `Scenarios.NulAndTab` | src/utils/Schema.js:102-125 | For a one-column text table, the line of the document `{note: "a<NUL>b<TAB>c"}` is `a b\<TAB>c` followed by a newline: the NUL is sanitised to a space, then the tab is escaped. |

## Left out

- Lookup by path (`lodash/get`, line 43) is modelled as a dotted path through nested objects, and a missing key gives `undefined`. Not modelled: lodash's bracket and array-index syntax, a literal key that itself contains dots, and lookups through arrays or through non-plain objects. When several members share a key, the first one wins.
- `./omit` (line 80) is not part of this model. It appears as `Library.omit`, with no properties assumed.
- The text `JSON.stringify` writes (lines 56 and 81) is `Library.stringify` applied to the replaced tree. Not modelled: number formatting, string and key escaping, cyclic structures and serialisation errors. A Decimal128 inside a nested value is the leaf `JDecimal`, because its JSON form comes from the MongoDB driver.
- Only the runtime kinds the coercion distinguishes are modelled: null, boolean, number, string, ObjectId, Decimal128, array and plain object. Dates, Buffers and other driver types are objects that `JSON.stringify` would encode. Bigints, symbols and functions would fall to the `default` branch.
- Numbers are `real`s. IEEE-754 rounding, `NaN`, the infinities and `-0` are not modelled. Rendering a number as text (line 124) is `Library.numText`.
- The generator's laziness (lines 39-83) is not modelled: `TransformValues` returns the whole row as a sequence.
- Primary-key validation is not modelled because the code has none. Nothing checks that the keys are non-empty or name existing columns. Column and key names are placed between double quotes without escaping.
- `StructuredEncoder.ReplaceAt`: proved in one direction only. A position that exists in the document exists in the encoded tree. The converse fails below an ObjectId, whose encoding gains a `$oid` member.
- `TextRow.TextLineRoundTrip`: needs at least one value, because a row with no values is written as a bare newline, which reads back as one empty field. It also needs `numText` to write no backslash, tab, newline or CR, which JavaScript's number text never does.
- Member keys of nested objects are copied into the JSON tree unsanitised, as the replacer only sees values. BSON keys cannot hold a NUL, so nothing is lost in practice.
- `ValueCoercer.RowNoNul` and `TextRow.LineNoNul` assume a canonical document: every ObjectId is 24 lower-case hex digits and no Decimal128 text holds a NUL. They also assume that the JSON and number texts hold no raw NUL. `JSON.stringify` writes a NUL as `\u0000`.
- `TextRow.DecodeLine` reads back only the escapes that `escapeText` produces (a backslash followed by a character means that character), plus `\N`. It does not read PostgreSQL's octal, hex, `\b`, `\f` or `\v` escapes.
- The database connection, the execution of `COPY` and `INSERT`, and the command-line wiring are outside this file.
