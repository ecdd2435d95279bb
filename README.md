# jsonlogfmt in Dafny

This project models the core of `jsonlogfmt`, a converter from logfmt records
(`key=value key2=value2`, one record per line) to JSON objects (one per
record, each followed by a newline). It covers two parts of the Go package.

- **Types and schema** (`schema.go`):
  - The closed `Type` enumeration and its names.
  - Coercion of a raw value string to a typed value.
  - The strict/permissive field-inclusion rule and the value-resolution rule.
  - The `name:type` declaration parser that fills a schema's fields.
  - Inference of a schema from the shape of a Go struct type.
- **The streaming `Reader`** (`reader.go`): a two-state buffer machine.
  - When its byte buffer is empty, `Read` decodes the next logfmt record through the schema, encodes it, and puts exactly that one encoding in the buffer.
  - It then hands the buffer out from the front, as much as fits in the caller's slice.

Files:
- `wrappers.dfy`: `Option` and `Result`.
- `strings.dfy`: the one-character `strings.Index`.
- `types.dfy`: `Type`, `ParseType`, `ParseBool`, `ParseValue`, and the value and error datatypes.
- `schema.dfy`: the `Schema` class with `Valid`, `Parse`, `String` and `Set`, and the declaration parser `ParseDecl`.
- `infer.dfy`:
  - The type shapes that stand in for `reflect.Type`.
  - `FieldKey`, `FieldType` and `InferFields`.
  - The struct of the package's inference test.
- `reader.dfy`:
  - The decoder cursor.
  - The per-record fold `DecodeFields` and the refill step `Refill`.
  - The `Reader` class with `Read`, `DecodeMap`, `SetIndent` and its constructor.

The reader's central property is **byte conservation**, stated by `Reader.Valid` together with `Read`'s per-refill `ensures`, and kept by every method. The bytes returned by all successful `Read` calls, followed by what is still buffered, are exactly the concatenation of the encodings of the records consumed so far, in input order. Each refill appends exactly one record's encoding, which ends in a newline.

The second property is the **all-or-nothing record policy**. If any declared field of a record fails to parse, the record yields no bytes at all. The error names the first such field, and the cursor moves past the record.

Where the code and the package's other texts disagree, the model follows the code:
- `reader.go` uses `Schema` as if it were a map (`schema == nil`, `r.schema[key]`), and so does `reader_test.go`. `schema.go` defines it as a struct of `Strict` and `Fields`. The reader is modelled as looking keys up in `Fields`. `Readers.ConvertIsSchemaParse` proves this lookup is `Schema.Parse` with the error tagged by the key.
- The reader never calls `Valid`, so strict mode filters nothing in the conversion. The model does not filter either. `Schemas.AdmittedKeys` states what the filter would admit.
- The inference test expects a `float64` member to infer `NumberType`. The code has no float case, so the member is skipped. `Inference.InferThing` proves the code's result, which has no `"Float"` entry.
- Booleans accept exactly the twelve spellings of Go's `strconv.ParseBool`, not arbitrary case variants.

## Model

| member | source | states |
|---|---|---|
| `Types.Type.String` | schema.go:22-36 | the name is `"invalid"` exactly for `TimeType` |
| `Types.ParseType` | schema.go:38-53 | succeeds exactly on `number`, `duration`, `string`, `bool` (case-sensitive); on success the type's name is the input and the type is not `TimeType`; otherwise the error is `InvalidType` of the input |
| `Types.TypeNameRoundTrip` | schema.go:23-53 | `ParseType(t.String()) == t` for the four named types; `TimeType`'s name `"invalid"` is rejected |
| `Types.ParseBool` | schema.go:64-66 | accepts exactly the true and false spellings of `strconv.ParseBool`; the result is true iff the text is a true spelling; any other text is an `InvalidBool` error |
| `Types.ParseValue` | schema.go:55-72 | a successful value has the requested type; `StringType` is the identity and never fails; `TimeType` always fails; `BoolType` succeeds exactly on the `ParseBool` spellings, with the matching boolean, and otherwise fails with `InvalidBool` of the text; number and duration succeed exactly when their parser does, with the parser's value, and otherwise fail with `InvalidNumber` or `InvalidDuration` of the text |
| `Strings.Index` | schema.go:174 | the first position of the separator, or -1 iff it does not occur; `ParseDecl` also uses it for the split at the first colon of schema.go:110 |
| `Schemas.ParseDecl` | schema.go:110-118 | no `:` gives `InvalidSyntax` and vice versa; with a colon every failure is `InvalidType`; a success `(name, t)` has a colon-free name and the text is exactly `name + ":" + t.String()` |
| `Schemas.ParseDeclSplitsAtFirstColon` | schema.go:110-118 | for a colon-free name, `name:rest` splits at that colon and the result is `ParseType(rest)` paired with the name |
| `Schemas.ParseDeclOfRendered` | schema.go:109-118 | every colon-free name with a named type is read back from `name:typeName` |
| `Schemas.ParseDeclSecondColon` | schema.go:110-115 | `"a:b:c"` is rejected with `InvalidType("b:c")` |
| `Schemas.ParseDeclEmptyName` | schema.go:110-115 | `":number"` is accepted with the empty name |
| `Schemas.Schema.constructor` | schema.go:75-78 | the zero value: not strict, no fields |
| `Schemas.Schema.Valid` | schema.go:80-87 | every key when not strict; when strict, exactly the declared keys |
| `Schemas.Schema.Parse` | schema.go:89-96 | an undeclared key yields its text unchanged with no error, whatever the strict flag; a declared key yields `ParseValue` of its type; a success has the declared type |
| `Schemas.Schema.String` | schema.go:98-105 | the text is one `name:typeName` line per field, visiting every field once in some order |
| `Schemas.Schema.Set` | schema.go:107-124 | succeeds exactly when the declaration parses; on error the fields are unchanged and the error is the parser's; on success exactly the declared name is set to its type, overwriting any earlier entry; the strict flag is never touched |
| `Schemas.AdmittedKeys` | schema.go:81-87 | of any set of keys, `Valid` admits all of them when not strict and exactly those declared when strict |
| `Schemas.StrictEmptyAdmitsNothing` | schema.go:81-87 | strict mode with no fields admits no key |
| `Schemas.ParseIgnoresStrict` | schema.go:90-96 | two schemas with the same fields resolve every pair alike |
| `Inference.FieldKey` | schema.go:169-178 | an untagged member's key is its name; a tagged member's key is a comma-free prefix of the tag, either the whole tag or the text before its first comma |
| `Inference.FieldKeyExamples` | schema_test.go:13-24 | `"what,"` gives `"what"`, `"foo"` gives `"foo"`, no tag gives the member name, `",omitempty"` gives the empty key |
| `Inference.FieldType` | schema.go:147-167 | after one pointer level is removed, the result is `DurationType` exactly for `time.Duration` and `TimeType` exactly for `time.Time` |
| `Inference.FieldTypeByKind` | schema.go:158-166 | any other type is typed by its kind alone: Int, Int16, Int32, Int64 give Number, Bool gives Bool, String gives String, and every other kind is skipped |
| `Inference.DurationBeforeKind` | schema.go:147-157 | `time.Duration` has kind Int64 yet yields `DurationType`, also behind a pointer |
| `Inference.SkippedShapes` | schema.go:148-166 | a pointer to int is Number; a pointer to a pointer, float64, int8 and uint64 are skipped |
| `Inference.CollectLastWins` | schema.go:136-143 | writing entries in order sets a key iff some entry sets it, and the key gets the value of the last such entry |
| `Inference.InferredLastWins` | schema.go:136-143 | a key is inferred iff some member declares it, and its type is that of the last member declaring it |
| `Inference.InferFields` | schema.go:126-145 | for a struct or a pointer to one (others panic), the result is the map built by visiting the members in order |
| `Inference.ThingKeys` | schema_test.go:12-19 | the keys of the test struct's members: `foo`, `Bar`, `what`, `Yes`, `Buz`, `Float` |
| `Inference.ThingTypes` | schema_test.go:12-19 | the test struct's members infer Number, Bool, Duration, String and Time, and the float64 member infers nothing |
| `Inference.ThingEntries` | schema_test.go:12-19 | each test struct member contributes its key and type in order, and the float64 member contributes nothing |
| `Inference.InferThing` | schema_test.go:20-28 | the pointer to the test struct infers `foo`, `Bar`, `what`, `Yes` and `Buz`, and no `Float` entry |
| `Readers.Convert` | reader.go:64-74 | an undeclared key keeps its raw text; a declared key's value has the declared type; a failure names the declared key |
| `Readers.ConvertIsSchemaParse` | reader.go:66-74 | the reader's lookup equals `Schema.Parse` with its error tagged by the key |
| `Readers.DecodeFieldsFailure` | reader.go:63-75 | a record decodes iff every pair converts; otherwise its error is that of the first pair that does not |
| `Readers.DecodeFieldsLastWins` | reader.go:63-75 | a decoded record has exactly the keys of its pairs, each with the converted value of its last pair |
| `Readers.DecodeFieldsStopsAtFailure` | reader.go:67-70 | once a prefix of the pairs fails, later pairs do not change the outcome |
| `Readers.EmptyLineDecodesEmpty` | reader.go:63 | a record without pairs decodes to the empty map |
| `Readers.NextRecord` | reader.go:56-77 | a set decoder error is reported again without moving the cursor; an exhausted clean input is `EOF`, a failed one its error; at the end of a clean input the decoder is left as it was, so every later call is `EOF` again; otherwise exactly one record is consumed, whatever its outcome: a field failure is the result of decoding its pairs, a syntax error after the pairs becomes the decoder's error, and a clean record's map is exactly `DecodeFields` of its pairs |
| `Readers.NextRecordContents` | reader.go:56-77 | a record decodes iff it has no syntax error and every pair converts; its map has exactly the pairs' keys, each with its last pair's converted value; a field failure is the error of the first pair that fails |
| `Readers.Refill` | reader.go:41-50 | the cursor is left as `decodeMap` leaves it; a decode failure is returned unchanged; a decoded record's bytes are exactly its marshalled map plus a newline, and a marshal failure becomes an `EncodeError` |
| `Readers.BadFieldDropsRecord` | reader.go:43-70 | a record with a failing declared field yields a key error, no bytes, and a cursor past that record |
| `Readers.EmptyRecordIsEncoded` | reader.go:43-63 | a clean record without pairs is still encoded, as the empty map plus a newline |
| `Readers.SyntaxErrorIsSticky` | reader.go:56-77 | a decoder error after a record's pairs fails that refill and every later one with the same error, without moving the cursor |
| `Readers.Reader.constructor` | reader.go:20-33 | an empty buffer over the whole input, compact output, a copy of the schema, nothing delivered or encoded |
| `Readers.Reader.SetIndent` | reader.go:35-38 | only the encoder setting changes, so it applies from the next record encoded |
| `Readers.Reader.DecodeMap` | reader.go:54-77 | the map or error and the new cursor are those of `NextRecord` |
| `Readers.Reader.Drain` | reader.go:51 | `min(len(data), len(buf))` bytes move from the front of the buffer to the front of `data`, the rest of `data` is untouched, the rest of the buffer stays, and byte conservation is kept |
| `Readers.Reader.Read` | reader.go:40-52 | with bytes buffered: the source is untouched, `min(len(data), len(buf))` bytes come from the front of the buffer, and the rest stays buffered; with none: a failed refill returns 0 and its error and buffers nothing, and a successful one appends exactly one encoding, then drains it the same way; byte conservation is kept |

## Left out

- `strconv.ParseFloat` and `time.ParseDuration` are not modelled. They are the two partial functions of `Types.Parsers`. A float64 is carried as its 64-bit pattern, with no arithmetic. The ±Inf value `ParseFloat` returns beside a range error is dropped with the error.
- `encoding/json` is not modelled. It is the caller-supplied `Readers.Marshal`, which takes the indentation setting and the map. The model adds the newline that `json.Encoder.Encode` appends. The JSON text itself and the effect of the indentation are not modelled.
- The `go-logfmt` tokenizer is not modelled. Input is a sequence of already-tokenised lines, each with its pairs and the syntax error that ended its scan, if any. Quoting, escaping and line splitting are not modelled. The decoder keeps its error once set, and the model reproduces that.
- `reflect` is replaced by the `Inference.Shape` datatype. `StructTag.Get("json")` is not modelled: a member carries the `json` tag value directly. The unexported members of `time.Time` are not modelled. The panic on a non-struct input is the precondition of `InferFields`.
- `Type` is a Go `int`, and integers other than the five constants reach the same `"invalid"` and "invalid type" branches as `TimeType`. The model's closed enumeration leaves those integers out.
- A nil `Fields` map is modelled as the empty map. Every read treats them alike, and `Set` initialises the map before writing to it.
- The reader copies the schema when it is created. In Go the copied struct still shares its `Fields` map with the caller. Later `Set` calls on the caller's schema are therefore visible to the reader, and the model does not capture that sharing.
- `Schemas.Schema.String`: map iteration order is left open, as an arbitrary visiting order. The formatting of `fmt.Fprintf` is reduced to concatenation.
- `bytes.Buffer` capacity, growth and reset are not modelled. The buffer is a byte sequence that is reassigned.
- `cmd/jsonlogfmt/main.go` is not part of this model. It covers flag parsing, standard input and output, `io.Copy`, and the refusal of strict mode without fields.
- `reader_test.go` is not part of this model. It is a golden-file test whose input and expected output are not available.
