# json.hpp in Dafny

A model of `howtowrite::json`, a single-header C++ JSON library, and proofs about it.

The library has three parts, and the model follows them.

- **The json value** (module `JsonValue`, with `Paths`). A json is a tag (`jsonType`)
  and a payload whose C++ type is picked by the `convert<T>` table. Here the tag and the
  payload are one datatype `Value`, so they cannot disagree. The class `Json` holds a
  `Value` and updates it in place the way the member functions do:
  - the constructors, the move constructor, `free` and `copy`;
  - both `operator=` overloads and `as<T>`;
  - `operator[](unsigned)`, which auto-vivifies an Array and throws -2 beyond its size;
  - `operator[](const std::string&)`, which auto-vivifies an Object and inserts a Null entry.
- **The reader** (modules `Stream` and `Reader`).
  - The stream is a text with a read position and an end flag. The class `InStream` models `>>`, `get`, `peek` and `ignore`.
  - `is()` is the token classifier, kept with its off-by-one: the last character of a token is never tested.
  - `to<int>` is `std::stoi`, kept with its exceptions.
  - `to<bool>` is a comparison with `true`.
  - `read` pops slots off a stack of `json*`. A slot is modelled as a path of keys and indices from the root. `Step` is one turn of the loop and `Run` iterates it. The class `Reader` runs the same loop in place, and `Reader.Read` is proved to end exactly as `Run` says.
  - A loop that never returns in the source ends in the status `Diverged` in the model.
- **The writer** (modules `Writer`, `Numerals`, `KeyOrder`).
  - `Render` is the text `write(out, lvl)` produces.
  - `Write` appends it with the loops of the source.
  - The order in which an `unordered_map` is iterated is unspecified. The model fixes one order, the lexicographic one, and uses only that each key comes once.

The module `RoundTrip` proves that reading what the writer wrote rebuilds the value. This holds for values the reader can read back:
- the top level is a non-empty Array or Object;
- there are no empty containers;
- the leaves are Null, Boolean, a non-negative Decimal or a String without a quote;
- the keys hold neither a quote nor white space.

Behaviour of the code worth knowing, which the model keeps:
- `{}` does not parse: the reader demands a quote after `{`, and throws 0.
- `[]` does not parse either. The `]` becomes the first character of a token, and the token loop waits past the end of the stream for a delimiter.
- A top-level scalar such as `42` never returns either, because no delimiter follows it.
- A premature end of input inside a token does not throw. The token loop never ends.
- A malformed token throws -3 (`BadToken`), not the 0 of the structural errors.
- Because of the off-by-one in `is()`, `12a` is a Decimal token, and `stoi` reads 12 from it.
- A `null` token leaves its slot as it was. It does not set the slot to Null.
- In an Object, the character between entries is not checked. Any character other than `}` acts as a `,`.
- A repeated key does not overwrite its entry. `operator[]` returns the existing entry, and the reader fills that in place: scalars are replaced, and Objects are merged.

## Model

| member | source | states |
|---|---|---|
| JsonValue.ThrownCode | json.hpp:290 | each failure thrown as an integer carries its own code: 0 for a parse error (lines 370-374), -1 for a tag mismatch (line 316), -2 for an index beyond the size (line 290), -3 for a bad token (line 349); the `std::stoi`/`std::stod` exceptions, and only they, carry none |
| JsonValue.TypeCode | json.hpp:12-20 | each `jsonType` enumerator has exactly its value: Null 0, Float 1, Boolean 2, Decimal 3, String 4, Array 5, Object 6 |
| JsonValue.TypeCodeInjective | json.hpp:12-20 | no two enumerators share a value |
| JsonValue.Convert | json.hpp:95-112 | `convert<T>` never yields Null |
| JsonValue.ConvertInjective | json.hpp:95-112 | no two C++ types share a tag |
| JsonValue.Wrap | json.hpp:238-241 | constructing or assigning from a `T` gives tag `convert<T>()`, never Null |
| JsonValue.WrapInjective | json.hpp:238-241 | different payloads give different values |
| JsonValue.PayloadAs | json.hpp:315-318 | `as<T>` fails exactly when the tag is not `convert<T>()`, and then with -1; on success it returns a payload of type `T` that wraps back to the value |
| JsonValue.AssignThenAs | json.hpp:307-318 | after `j = x` with `x` of type `T`, `as<T>` returns `x` and `as<U>` for any other `U` throws -1 |
| JsonValue.Subscript | json.hpp:279-294 | `operator[](n)` makes the json an Array and keeps its old elements if it was one; at the size it appends one Null; below the size it designates the element; beyond the size it throws -2 without growing |
| JsonValue.SubscriptAgain | json.hpp:279-294 | subscripting the same index again changes nothing: an array grows at most once per index |
| JsonValue.AppendNullsContents | json.hpp:286-288 | `k` appends at the size keep the old elements and add exactly `k` Nulls |
| JsonValue.Lookup | json.hpp:295-302 | `operator[](key)` makes the json an Object; its keys are the old keys plus `key`; old entries are kept; a missing key is inserted as Null |
| JsonValue.LookupAgain | json.hpp:295-302 | a second lookup of the same key changes nothing |
| JsonValue.LookupCommutes | json.hpp:295-302 | looking up two keys gives the same Object in either order |
| JsonValue.Json.constructor | json.hpp:271-273 | `json()` is Null |
| JsonValue.Json.FromPayload | json.hpp:238-241 | the converting constructors (also lines 247-258 and 266-269) hold the argument under the tag `convert<T>()` |
| JsonValue.Json.Copy | json.hpp:243-246 | the copy constructor holds what the source holds |
| JsonValue.Json.Move | json.hpp:261-264 | the move constructor takes the source's value and leaves the source Null |
| JsonValue.Json.Free | json.hpp:114-138 | `free()` leaves the tag Null, whatever it was |
| JsonValue.Json.CopyFrom | json.hpp:139-165 | `copy(j)` frees first, so the json holds `j`'s old value, or Null when `j` is the json itself |
| JsonValue.Json.Assign | json.hpp:303-306 | `operator=(const json&)` as written: the effect of `copy`, including the self-assignment case |
| JsonValue.Json.AssignChecked | json.hpp:303-306 | the same with a self-assignment check: afterwards the json holds what `right` held |
| JsonValue.Json.AssignPayload | json.hpp:307-312 | `operator=<T>` stores the argument under `convert<T>()`, and `as<T>` then reads it back |
| JsonValue.Json.As | json.hpp:315-318 | `as<T>` returns the payload, or -1 exactly on a tag mismatch |
| JsonValue.Json.At | json.hpp:279-294 | the json and the designated element after `operator[](n)` are what `Subscript` says |
| JsonValue.Json.AtKey | json.hpp:295-302 | the json after `operator[](key)` is what `Lookup` says, and the result is its entry for `key` |
| JsonValue.SelfAssignmentClears | json.hpp:303-306 | `a = a` on a json holding 1 leaves it Null |
| JsonValue.CheckedSelfAssignmentKeeps | json.hpp:303-306 | with the check, `a = a` keeps 1 |
| Paths.Put | json.hpp:388 | writing through a slot leaves the slot in place holding the new value |
| Paths.PutElsewhere | json.hpp:388 | writing through a slot changes no slot off its path: every slot that is neither an ancestor nor a descendant still exists and holds what it held |
| Paths.PutAt | json.hpp:403 | writing back what a slot holds leaves the tree unchanged |
| Paths.PutPut | json.hpp:405-406 | a second write through the same slot overrides the first (`j = 0` then `to<int>`) |
| Paths.PutBelow | json.hpp:375-376 | writing a child slot equals writing its parent with that child replaced |
| Paths.ResolvesBelow | json.hpp:382-383 | after a parent becomes a container holding a child, the child slot exists |
| Paths.PrefixResolves | json.hpp:375 | every ancestor of an existing slot exists, so the parent under a child on the stack is still there |
| KeyOrder.Enumerate | json.hpp:200-218 | the order of the Object loop visits each key exactly once |
| Writer.KeysOf | json.hpp:200-201 | the keys the writer visits are exactly the Object's keys, each once |
| Writer.Tabs | json.hpp:202-203 | `tabs` is `lvl` tab characters |
| Numerals.NatTextValue | json.hpp:229 | the decimal text of a natural number denotes that number |
| Numerals.Stoi | json.hpp:322-324 | `to<int>`: succeeds exactly when the buffer starts with a digit and its leading digits are at most `INT_MAX`, with their value; `invalid_argument` exactly when the buffer does not start with a digit; otherwise `out_of_range` |
| Numerals.StoiOfText | json.hpp:322-324 | `stoi` reads back the text `out << int` writes, for every non-negative int |
| Stream.SkipWs | json.hpp:366 | `>>` skips to the first character that is not white space |
| Stream.ExtractChar | json.hpp:366 | `in >> c` reads the next non-blank character, or fails at the end with `c` unchanged; a failed stream stays failed |
| Stream.GetChar | json.hpp:386 | `in.get(c)` reads the next character, blanks included |
| Stream.UntilQuoteContents | json.hpp:371 | the key loop and the string loop collect exactly the characters before the first quote (the non-blank ones for the key loop), and leave the stream just past that quote, or failed at the end when there is none |
| Stream.KeyContents | json.hpp:371 | the key loop `while ((in >> eater) && eater != '"')` collects the non-blank characters before the first quote and stops just past it |
| Stream.StringContents | json.hpp:386-387 | the string loop `while (in.get(eater) && eater != '"')` collects every character before the first quote and stops just past it |
| Stream.InStream.Extract | json.hpp:366 | the stream after `>>` is what `ExtractChar` says |
| Stream.InStream.Get | json.hpp:386 | the stream after `get` is what `GetChar` says |
| Stream.InStream.Peek | json.hpp:393-394 | `peek` returns the next character without consuming it, or sets the end flag |
| Stream.InStream.Ignore | json.hpp:397 | `ignore` skips one character, or sets the end flag |
| Reader.Reader.Is | json.hpp:335-350 | the scan loop of `is()`, with `pos` advanced before the test, classifies the buffer as `Classify` does |
| Reader.ScanStop | json.hpp:342-343 | where the scan breaks off decides the status: the scan is complete exactly when the break comes at the last character |
| Reader.DigitsThenAnyIsDecimal | json.hpp:342-346 | digits followed by any one character other than a dot or a quote classify as Decimal, because the last character is not tested |
| Reader.NumberTextIsDecimal | json.hpp:346 | the text the writer gives a non-negative int classifies as Decimal |
| Reader.WordsClassified | json.hpp:347-348 | `null`, `true` and `false` classify as Null and Boolean |
| Reader.ClassifyExamples | json.hpp:341-349 | `12a` and `n` are Decimal, `1.5x` is Float, `1..` and `nul` throw -3 |
| Reader.TokenContents | json.hpp:392-399 | the token loop ends in front of the first `,`, `]` or `}` after the token start, having collected the non-blank characters before it; it finds no end exactly when no delimiter follows |
| Reader.NoDelimiterNoToken | json.hpp:392-399 | with no delimiter left in the text, the token loop never ends |
| Reader.Start | json.hpp:360-362 | `read` starts with the root slot alone on the stack, in a reachable state |
| Reader.StepProgress | json.hpp:363-418 | every turn that does not end the parse keeps the stack one line of descent with existing slots, and decreases the measure: either less input is left, or as much is left and the stack measure (its height, plus 2 for an Array slot on top that is resumed with a stale `,` on an exhausted stream) is smaller |
| Reader.PopWf | json.hpp:364 | popping the top slot keeps the state reachable |
| Reader.PushWf | json.hpp:375-376 | pushing a parent back and then its new child keeps the state reachable |
| Reader.SeparatorUnchecked | json.hpp:367-369 | in an Object slot, any character other than `}` between entries acts as a `,` |
| Reader.NullLeavesSlot | json.hpp:402-403 | a `null` token pops its slot without changing the tree |
| Reader.BareNumberDiverges | json.hpp:392-399 | reading `42` into a scalar json never returns |
| Reader.EmptyObjectThrows | json.hpp:367-370 | reading `{}` throws 0, whatever the json held |
| Reader.EmptyArrayDiverges | json.hpp:378-399 | reading `[]` into a Null json never returns: the `]` is read as a token |
| Reader.Reader.ReadUntilQuote | json.hpp:371 | the buffer gains what `UntilQuote` collects, and the stream and `eater` end as it says |
| Reader.Reader.SkipSpace | json.hpp:393 | the blank-skipping loop leaves the token to scan unchanged, and stops on a non-blank character or at the end |
| Reader.Reader.ReadToken | json.hpp:392-399 | the token loop adds the token to the buffer and stops at its delimiter, and fails exactly when `ScanToken` finds none |
| Reader.Reader.ReadEntry | json.hpp:367-377 | the Object branch ends as `ObjectStep` says |
| Reader.Reader.ReadElement | json.hpp:378-384 | the Array branch ends as `ArrayStep` says |
| Reader.Reader.ReadScalar | json.hpp:389-416 | the scalar branch ends as `ScalarStep` says |
| Reader.Reader.Turn | json.hpp:364-417 | one turn of the loop ends as `Step` says |
| Reader.Reader.Read | json.hpp:359-419 | `read(j)` ends with the status, stream and tree that `Parse` gives |
| Writer.Write | json.hpp:170-235 | `write` appends exactly `Render` of the value |
| Writer.WriteElements | json.hpp:178-197 | the Array loop appends the elements separated by commas |
| Writer.WriteEntries | json.hpp:199-221 | the Object loop appends the entries separated by comma, newline and tabs |
| Writer.WriteEntry | json.hpp:207-208 | one entry is a tab, the quoted key, a colon and the value one level deeper |
| Writer.EmptyObjectText | json.hpp:199-221 | an empty Object is written as the two braces on separate lines |
| Writer.RenderStart | json.hpp:170-235 | the first character of the text gives the kind of value: a quote exactly for a String, a bracket exactly for an Array, a brace exactly for an Object |
| RoundTrip.Fill | json.hpp:359-419 | from the first character of a value's text, with its slot on top and Null, the loop reaches the state where the slot holds the value and is popped |
| RoundTrip.FillArray | json.hpp:378-384 | the same for an Array: one element per `[` or `,`, closed by `]` |
| RoundTrip.FillObject | json.hpp:367-377 | the same for an Object: one entry per `{` or separator, closed by `}` |
| RoundTrip.RoundTrip | json.hpp:359-419 | reading into a Null json the text `write` (lines 170-235) gives a readable value completes, consumes the text and rebuilds the value |
| RoundTrip.WriteThenRead | json.hpp:421-428 | `os << v` and then `is >> j` with `j` Null completes, and `j` equals `v` |

## Left out

- Raw memory: `m_ptr`, `new` and `delete` are modelled as the datatype `Value`, so tag and payload cannot disagree and there is nothing to leak.
- Stream plumbing: `operator<<` and `operator>>` are modelled through `WriteThenRead` only. The output stream is a string that is appended to, and the input stream is a text with a position.
- `std::endl` flushing is not modelled; it is written as `\n`.
- Floating point: what `out << float` prints and what `std::stod` returns are parameters (`floatText`, `stod`). `to<float>` is therefore a call to the parameter, and Float values are left out of the round trip.
- `to<std::string>` (lines 328-331) is never called by `read`, so it is not modelled.
- Numerals.Stoi: models `std::stoi` only on the buffers the reader can hand it. These never start with white space, and the only ones that start with a sign are a lone `+` or `-`, on which `stoi` fails as the model says. Signed numbers and leading white space are therefore not modelled.
- Reader.Reader.Is: the `short` counters `pos` and `status` would overflow on tokens longer than 32767 characters; the model counts with unbounded integers.
- `unordered_map` iteration order: the model writes keys in lexicographic order. The round-trip proof uses only that each key comes exactly once.
- Non-termination: where the source loops forever, the model stops with the status `Diverged`. A fresh `[` on an exhausted stream is one such case, and the model then does not build the endlessly nested arrays.
- After `Diverged` or a throw, the tree the model reports is the tree at that point. The source may have changed it in ways the model does not follow.
- The round trip is proved only for the values described above. Negative numbers, Floats, empty containers, quotes inside strings, and keys with quotes or white space do not read back, as the list above explains.

## Findings

| source | as written | input that shows it | evidently intended | confidence | as-written member | corrected member |
|---|---|---|---|---|---|---|
| json.hpp:303-306 | `operator=(const json&)` calls `copy(right)`, and `copy` calls `free()` on this json before it reads `right`; when `right` is this json, the payload is released and the tag set to Null before it is copied, so `a = a` leaves `a` Null | `json a(1); a = a;` | self-assignment leaves the value as it was | not executed | JsonValue.SelfAssignmentClears | JsonValue.CheckedSelfAssignmentKeeps |
