# laravel-sequenceable: the sequence-counter table

This project models the `Sequence` model of laravel-sequenceable. That model
keeps one integer counter per (source table, column id) pair in a table named
`sequences`, and hands out the numbers 1, 2, 3, … for each pair.

- **Key derivation.** A counter's row is keyed by PHP's
  `hash('adler32', "<table>.<column id>")`. That is the Adler-32 checksum of
  section 2.2 of RFC 1950, written as eight lower-case hex digits.
  `Adler32` spells out the checksum as the fold that RFC defines, and proves
  it equal to the closed form with a plain sum and a weighted sum.
  `Hex` renders and parses fixed-width hex. `Sequenceable.SerieID` composes
  the two.
- **The table.** `Sequenceable.SequenceStore` holds the table in memory as a
  `map` from key to `Row`. Its methods are proved against pure functions on
  that map:
  - `FindOrCreateSerieModel` is proved against `FindOrCreate`.
  - `IncrementOneTo` is proved against `Allocate`.
  - `GetSeriesFrom` is proved against `SeriesFrom`.

  `Consistent` is the table's invariant. Every row sits under its own id, that
  id is the key of the row's own pair, and no counter is below 0.
- **A loaded row.** `Sequenceable.Sequence` is one row as an object. The two
  flavours of navigation stay distinct:
  - `Next` and `Prev` change the object's `sequence` field in place and return
    the new value. They do not write it back to the table.
  - `PrevAttribute`, `CurrentAttribute`, `NextAttribute` and `Current` only read
    the field.

PHP strings are byte strings, so table names and column ids are `seq<byte>`.
Keys are `string`.

Two behaviours of the code are worth stating plainly:

- `next()` and `prev()` apply `++` and `--` to the object's `sequence` field
  and return the new value (src/Model/Sequence.php:112-123). The
  `get…Attribute` accessors only read the field.
- The key is a checksum of the joined string "table.columnID", so two distinct
  pairs can share one record. `ConcatenationShare` and `ChecksumCollision`
  exhibit such pairs, and `SharedCounter` shows that they share one counter.

## Model

| member | source | states |
|---|---|---|
| `Adler32.RunClosedForm` | src/Model/Sequence.php:179-182 | The Adler-32 fold leaves s1 = (1 + sum of bytes) mod 65521 and s2 = (length + weighted sum) mod 65521, as RFC 1950 defines them |
| `Adler32.ChecksumClosedForm` | src/Model/Sequence.php:179-182 | The checksum's low 16 bits are s1 and its high 16 bits are s2, in closed form |
| `Adler32.SameSumsCollide` | src/Model/Sequence.php:179-182 | Byte strings of equal length with equal plain and weighted sums have the same checksum |
| `Adler32.Checksum` | src/Model/Sequence.php:181 | The digest of `hash('adler32', …)` is a 32-bit value (its two 16-bit halves are given by `ChecksumClosedForm`) |
| `Hex.Render` | src/Model/Sequence.php:181 | The `false` (hex) output of `hash` has exactly the requested width, every character a lower-case hex digit |
| `Hex.ParseRender` | src/Model/Sequence.php:181 | Fixed-width hex rendering (the `false` flag of `hash`) loses nothing: parsing the digits gives back the number |
| `Hex.RenderInjective` | src/Model/Sequence.php:181 | Two numbers render alike exactly when they are equal |
| `Sequenceable.SerieID` | src/Model/Sequence.php:179-182 | The key of a pair is eight lower-case hex digits |
| `Sequenceable.SerieIDEncodesChecksum` | src/Model/Sequence.php:179-182 | The key spells out the Adler-32 checksum of "table.columnID" |
| `Sequenceable.SameKeyIffSameChecksum` | src/Model/Sequence.php:169-182 | Two pairs get the same key if and only if their joined strings have the same checksum, so the key depends only on the joined string |
| `Sequenceable.ConcatenationShare` | src/Model/Sequence.php:181 | ("a.b", "c") and ("a", "b.c") are different pairs with one key |
| `Sequenceable.ChecksumCollision` | src/Model/Sequence.php:181 | ("x", "abc") and ("x", "b`d") join to different strings but get one key |
| `Sequenceable.FindOrCreate` | src/Model/Sequence.php:167-177 | An existing row under the key is returned and the table is unchanged. Otherwise exactly one row is inserted, with the given source and column id and counter 0 |
| `Sequenceable.Allocate` | src/Model/Sequence.php:160-177 | The value returned is the old counter + 1 (1 for a new key), and the row keeps it. A new row holds the given pair; an existing row keeps its source and column id. Every other row is untouched, and the key set grows by at most the derived key |
| `Sequenceable.AllocateConsistent` | src/Model/Sequence.php:160-177 | An allocation keeps the table's invariant |
| `Sequenceable.AllocationsCount` | src/Model/Sequence.php:160-165 | n calls for one pair return start+1, …, start+n in order (no gap, no repeat) and leave the counter at start+n. From an empty table the i-th call returns i |
| `Sequenceable.AllocateIndependent` | src/Model/Sequence.php:160-177 | Allocating for a pair with another key changes neither the value a pair gets nor its resulting row |
| `Sequenceable.SharedCounter` | src/Model/Sequence.php:169-176 | Pairs with one key share one counter: the second continues from the first, and the row keeps the first creator's source and column id |
| `Sequenceable.SeriesFrom` | src/Model/Sequence.php:152-155 | The result holds exactly the table's rows whose source equals the argument: none missing, none from another source |
| `Sequenceable.SeriesAfterUpdate` | src/Model/Sequence.php:152-155 | Replacing one row changes a source's series by exactly that row: the old version leaves, and the new one joins when its source matches |
| `Sequenceable.SeriesAfterAllocate` | src/Model/Sequence.php:152-176 | After an allocation every series changes only in the allocated row. A freshly created row joins its own table's series |
| `Sequenceable.SequenceStore.FindOrCreateSerieModel` | src/Model/Sequence.php:167-177 | The table and the returned row are those of `FindOrCreate`, and the invariant holds |
| `Sequenceable.SequenceStore.IncrementOneTo` | src/Model/Sequence.php:160-165 | The table and the returned value are those of `Allocate`, and the invariant holds |
| `Sequenceable.SequenceStore.GetSeriesFrom` | src/Model/Sequence.php:152-155 | Returns `SeriesFrom` of the current table and changes nothing |
| `Sequenceable.Sequence.Current` | src/Model/Sequence.php:128-131 | Returns the object's counter |
| `Sequenceable.Sequence.PrevAttribute` | src/Model/Sequence.php:82-86 | One below the current counter; reads only |
| `Sequenceable.Sequence.CurrentAttribute` | src/Model/Sequence.php:93-96 | Equals the current counter; reads only |
| `Sequenceable.Sequence.NextAttribute` | src/Model/Sequence.php:103-107 | One above the current counter; reads only |
| `Sequenceable.Sequence.Next` | src/Model/Sequence.php:112-115 | Raises only the object's counter by one and returns the value `NextAttribute` showed before |
| `Sequenceable.Sequence.Prev` | src/Model/Sequence.php:120-123 | Lowers only the object's counter by one and returns the value `PrevAttribute` showed before |
| `Sequenceable.NextThenPrev` | src/Model/Sequence.php:112-123 | `next()` then `prev()` returns old+1 then old, and leaves the object as it was |
| `Sequenceable.InvoiceNumbers` | src/Model/Sequence.php:82-165 | Three calls for ("invoices", "number") on an empty table return 1, 2, 3. The loaded row then reads prev 2, current 3 and next 4 |

## Left out

- Persistence through Eloquent is replaced by the in-memory map: `static::query()`, `firstOrCreate`, `increment` as SQL, and failures of the store. The row found by key and written back stands for the database row.
- The counter a new row starts from is the column default of the `sequences` migration. The migration is not part of this model, so the model takes that default to be 0. The PHP object agrees, because its unset `sequence` plus one is 1.
- Atomicity and concurrent callers racing on one key are left out. That guarantee comes from the database, and the model is sequential.
- The `created_at`/`updated_at` timestamps from `Carbon::now()`, and the `$casts`, `$appends`, `$fillable`, `$timestamps` and `$incrementing` settings, are serialisation and framework configuration.
- `getColumnID` and `getSourceValue` are plain field reads. The model reads the `columnId` and `source` fields directly.
- `Serie` is not part of this model. `IncrementOneTo` takes the column id that `Serie::getColumnID()` would return.
- `SequenceStore.Find` stands in for loading a row as an object, which the framework does. It has no row above because it is not code of this package.
- `getSeriesFrom` returns an Eloquent collection in storage order. The model returns a set, because the order is not specified.
- `SeriesFrom` compares sources byte for byte, as a binary collation does. Case-insensitive or pad-space collations, which a MySQL `where('source', '=', …)` may apply, are not modelled.
- `Allocate`, `Next` and `Prev`: the model's counter is an unbounded integer. PHP's 64-bit limit and the width of the `sequence` column are not modelled. At those limits `++` yields a float that the `int` return type rejects, or the SQL increment overflows.
