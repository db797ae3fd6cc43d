# njs bytecode disassembler, modelled in Dafny

This project models the disassembler of the njs JavaScript engine
(`njs/njs_disassembler.c`). The disassembler prints a listing of the bytecode
that the VM holds. The project has three parts:

- **The opcode catalog `code_names`.** Each row pairs a VM operation with the
  `sizeof` of its instruction structure and a 16-character mnemonic.
- **The walker `njs_disassemble`.** It moves a cursor over one code object.
  It first tests the tag at the cursor against ten special forms, then scans
  the catalog. A special form prints one line in a fixed layout and advances
  by its structure's size. A catalog row advances by the row's size and
  prints a 3-, 2- or 1-address line, or nothing when the size is none of
  those three. A tag found nowhere prints `UNKNOWN` and advances by the width
  of one tag.
- **The driver `njs_disassembler`.** It hands every code object to the walker,
  in order.

Modules:

| file | module | contents |
|---|---|---|
| `format.dfy` | `Format` | 64-bit words and the printf conversions used: `%04lX`, `%ld`, and the explicit `+` of jump offsets |
| `vm.dfy` | `Vm` | operations, instruction structures and fields, the compiler's layout (`Abi`), memory |
| `listing.dfy` | `Listing` | the printed lines, their text, and their column layout |
| `catalog.dfy` | `Catalog` | the 48 rows of `code_names` and the linear scan over them |
| `decoder.dfy` | `Decoder` | one pass of the loop as a function: the line printed and the distance moved |
| `walker.dfy` | `Walker` | the walk over `[start, end)`, the loop-body method `Pass` and the loop method `Disassemble` |
| `driver.dfy` | `Driver` | the loop over code objects |

The C code writes with `printf`. Here every `printf` call is recorded as the
`Line` it prints, with the values its format converts. `Render` gives the
exact text of a line, without the newline.

In the VM an operation tag is the address of the C function that runs the
instruction, and structure sizes and field offsets are chosen by the C
compiler. These are all parameters (`Abi`). Memory is a total function from
positions to 64-bit words.

Two behaviours of the code worth noting, both modelled as written:

- A jump offset of zero prints as `+0`, because the sign is chosen by
  `offset >= 0` (line 204).
- A catalog row whose size matches none of the three address structures
  prints no line. The cursor still moves by that row's size (lines 299-321).

## Model

| member | source | states |
|---|---|---|
| Format.Signed | njs/njs_disassembler.c:195-196 | `%ld` shows a word as a signed 64-bit value: within the signed range, congruent to the word modulo 2^64, and equal to it when it is not negative |
| Format.Hex04 | njs/njs_disassembler.c:302-304 | `%04lX` prints at least four hexadecimal digits, and the plain `%lX` spelling unchanged when that already has four or more |
| Format.Decimal | njs/njs_disassembler.c:195-196 | `%ld` prints a `-` exactly for negative values and no sign otherwise, followed by decimal digits |
| Format.HexField | njs/njs_disassembler.c:302-304 | `%04lX` prints at least four upper-case hex digits, exactly four iff the value is below 0x10000, never truncates, and the digits read back as the value |
| Format.SignedOffset | njs/njs_disassembler.c:204-206 | `%s%ld` with `sign = offset >= 0 ? "+" : ""` yields exactly one sign: `+` iff the offset is >= 0 (so zero prints `+0`), `-` iff negative, and the numeral reads back as the offset |
| Format.PlusOffset | njs/njs_disassembler.c:247-248 | `+%ld` always begins with a literal `+` followed by `%ld` of the offset: it equals the signed form for offsets >= 0 and begins `+-` for negative ones |
| Format.DecimalField | njs/njs_disassembler.c:257-258 | `%ld` prints a numeral with a leading `-` exactly for negative values, and it reads back as the value |
| Listing.OperandReadsBack | njs/njs_disassembler.c:191-333 | every converted operand prints as one non-empty word without spaces that denotes its value, as its conversion promises |
| Listing.Label | njs/njs_disassembler.c:195-333 | each line starts with its fixed mnemonic, or with the catalog name printed whole by `%*s` followed by two spaces; with a 16-character name every label is 18 columns wide and ends in two spaces |
| Listing.Operands | njs/njs_disassembler.c:195-333 | each format string converts one to four operands, in its own order; the offset-carrying forms print the offset last, by `%s%ld` for the jumps, `+%ld` for PROPERTY START, TRY START, CATCH and TRY END, and `%ld` for PROPERTY EACH |
| Listing.Render | njs/njs_disassembler.c:195-333 | a printed line is its label followed by its operands; when any catalog name in it is 16 characters wide, the label fills columns 0-17 and column 18 holds the first operand character, never a space |
| Listing.LineLayout | njs/njs_disassembler.c:195-333 | every line with a 16-character catalog name has an 18-column label ending in two spaces, and from column 18 its text splits at single spaces into exactly its operands' words, in order |
| Listing.OffsetWord | njs/njs_disassembler.c:204-288 | the last word of a jump line is the signed offset; for PROPERTY START, TRY START, CATCH and TRY END it is `+` followed by `%ld`; for PROPERTY EACH it is the bare `%ld` |
| Listing.LastWord | njs/njs_disassembler.c:195-333 | the last word of a printed line is the text of its last operand |
| Catalog.IndexOf | njs/njs_disassembler.c:32-144 | every regular operation has a row that names it |
| Catalog.Row | njs/njs_disassembler.c:32-144 | row `i` of `code_names`, in source order: operation, structure and a mnemonic exactly 16 characters wide |
| Catalog.Lookup | njs/njs_disassembler.c:292-329 | the scan of the whole table finds, if anything, a row carrying the tag sought and a 16-character mnemonic |
| Catalog.MnemonicsAligned | njs/njs_disassembler.c:32-144 | every mnemonic in the table is exactly 16 characters wide |
| Catalog.NoSpecialFormInCatalog | njs/njs_disassembler.c:32-144 | no row names one of the ten special forms |
| Catalog.RowsDistinct | njs/njs_disassembler.c:32-144 | no operation has two rows |
| Catalog.LookupFrom | njs/njs_disassembler.c:292-329 | the scan of the rows from `k` on returns only a row whose operation has the tag sought |
| Catalog.LookupFromFirst | njs/njs_disassembler.c:292-329 | when row `i` is the first row from `k` on with the tag, the scan returns exactly row `i` |
| Catalog.LookupFromMissing | njs/njs_disassembler.c:292-329 | the scan comes back empty iff no row from `k` on has the tag |
| Catalog.LookupFromAbsent | njs/njs_disassembler.c:292-329 | when no row from `k` on has the tag, the scan comes back empty |
| Catalog.LookupFromPresent | njs/njs_disassembler.c:292-329 | when some row from `k` on has the tag, the scan finds a row |
| Catalog.LookupFromAligned | njs/njs_disassembler.c:296-299 | a row the scan returns carries a 16-character name |
| Catalog.LookupRegular | njs/njs_disassembler.c:292-329 | with distinct tags, a regular operation's tag finds that operation's own row |
| Catalog.LookupSpecial | njs/njs_disassembler.c:292-329 | with distinct tags, a special form's tag is in no row |
| Decoder.SpecialForm | njs/njs_disassembler.c:191-288 | the special-form tests return a special form whose tag matches, and no form tested earlier matches; they return nothing iff no special form has the tag |
| Decoder.Step | njs/njs_disassembler.c:189-333 | a pass always moves the cursor by at least the width of a tag, and it prints nothing only for a catalog row whose size is none of the 1-, 2- and 3-address sizes |
| Decoder.DecodeSpecial | njs/njs_disassembler.c:191-288 | each special form prints a line of its own kind, with the fields its `printf` takes, and never a catalog or `UNKNOWN` line |
| Decoder.DecodeRegular | njs/njs_disassembler.c:299-319 | a catalog row prints its own name in a 3-address line iff its size is the 3-address size, else a 2-address line iff its size is the 2-address size, else a 1-address line, or nothing iff its size is none of the three |
| Decoder.SpecialFormsFirst | njs/njs_disassembler.c:191-288 | a special form's tag is decoded by that form's own branch and advances by that form's size; the catalog does not know it |
| Decoder.CatalogDispatch | njs/njs_disassembler.c:292-324 | a regular operation's tag advances by its own row's size even when nothing is printed, and prints the 3-, 2- or 1-address line, tested in that order, or nothing iff the size matches none |
| Decoder.UnknownTag | njs/njs_disassembler.c:329-333 | a tag that is no operation's prints `UNKNOWN` with the tag and advances by the width of one tag |
| Decoder.StepAligned | njs/njs_disassembler.c:296-318 | a line showing a catalog name shows it 16 characters wide |
| Walker.Steps | njs/njs_disassembler.c:188-338 | the adapter from `Step` to the walker's decoding function: it agrees with `Step` at every position, and every position moves the cursor forward |
| Walker.FinalCursor | njs/njs_disassembler.c:188 | the loop stops at the first cursor at or past `end`, never before its start |
| Walker.Walk | njs/njs_disassembler.c:188-338 | the lines of the loop from `p` to `end`: each pass contributes its decoded line, if any, and moves by its decoded size (its bound of one line per pass is `LinesPerPass`) |
| Walker.Cursors | njs/njs_disassembler.c:188-338 | the positions decoded start at `start`, stay inside `[start, end)`, and each is the one before it plus the size decoded there; there are some iff `start < end` |
| Walker.LastCursor | njs/njs_disassembler.c:188-338 | the size decoded at the last position takes the cursor to where the loop stops |
| Walker.LinesPerPass | njs/njs_disassembler.c:188-338 | the walk prints at most one line per pass |
| Walker.StepsAligned | njs/njs_disassembler.c:296-318 | every line the decoder prints has an aligned catalog name |
| Walker.WalkAligned | njs/njs_disassembler.c:188-338 | every line of the walk is aligned, so `LineLayout` holds for all of them |
| Walker.WalkPass | njs/njs_disassembler.c:188-338 | one pass moves its line, if any, from what is left to print onto what has been printed |
| Walker.CursorsPass | njs/njs_disassembler.c:188-338 | one pass moves its position from what is left to decode onto what has been decoded |
| Walker.PassProgress | njs/njs_disassembler.c:188-338 | one pass keeps the loop's progress: lines printed, positions decoded and the stopping point, each as a prefix of the whole walk |
| Walker.Pass | njs/njs_disassembler.c:189-333 | the loop body, with its ten tests and its do-while scan that leaves by `goto next`, prints and advances exactly as `Step` |
| Walker.Disassemble | njs/njs_disassembler.c:164-339 | `njs_disassemble` prints exactly the lines of `Walk` from `start` to `end`, decodes exactly at the positions `Cursors` lists, and stops at `FinalCursor` |
| Driver.Listings | njs/njs_disassembler.c:147-161 | the listing of the code objects, in storage order: no objects list nothing, and one object is listed exactly as the walker lists it |
| Driver.ListingsInOrder | njs/njs_disassembler.c:156-160 | the listing of two runs of code objects is the first run's listing followed by the second's |
| Driver.Disassembler | njs/njs_disassembler.c:147-161 | `njs_disassembler` prints exactly `Listings` of all code objects, in storage order |

## Left out

- Output: `printf` and `stdout` are not modelled as I/O. Each call is a `Line` record, and `Render` gives its text.
- The VM's headers, which define the instruction structures, the tag functions and `njs_vm_t`, are not part of this model. Sizes, offsets and tags are parameters (`Abi`), and `vm->code` is a sequence of `CodeObject`s.
- Byte-level reads are not modelled. A field is one 64-bit word at `p + offset`. `METHOD` prints `nargs` with `%d`; since the width of `nargs` is not known here, the model reads it as a word and prints its signed value.
- Reads past `end` are not bounded: memory is total. A last instruction that is cut off at `end` is still read in full, as in the C code.
