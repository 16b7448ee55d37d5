# ASN label sheet generator — a Dafny model

This project models the `generate_asn_labels` management command of the
document archive. The command prints sheets of Archive Serial Number (ASN)
labels such as `<ASN:000000001>`, to be stuck on paper documents before
scanning. It runs in four steps:

1. It checks that the target folder exists and is writable.
2. It computes the last ASN of the run as `asn_start + pages * rows * columns - 1`.
3. It lays out `pages` pages of `rows` x `columns` cells. Each cell holds the
   next ASN, formatted with the label template (default `<ASN:{:09}>`).
4. It names the PDF after the first and last ASN.

The model has four modules:

- `Decimal` (`decimal.dfy`): Python's decimal rendering of a natural number,
  zero padding to a minimum width (never truncating), and the reverse
  reading.
- `LabelFormat` (`label_format.dfy`): the label template as
  prefix / zero-padded width / suffix, and its inverse `Parse`. Negative
  numbers are rendered the way Python's `{:09}` renders them: sign first,
  zero fill after it. It also has the nine-digit extraction pattern
  `<ASN:([0-9]{9})>` that the consumer side uses.
- `SheetLayout` (`sheet_layout.dfy`): the renderer reduced to a trace of
  `NewPage`, `Cell(text)` and `LineBreak` events. It holds the reference
  layout `Pages`, built from one generic shape: blocks laid end to end,
  with block `q` numbered from `first + q * step`. Its lemmas state
  lengths, label order, break counts, and the closed-form position of
  every cell.
- `LabelCommand` (`generate_asn_labels.dfy`): the command itself. It covers
  the options and their defaults, the three nested emission loops as
  methods, `Handle` with its error outcomes, the file name, and scenario
  lemmas for the default run.

Options are Python integers, so a negative count is allowed. The loops run
`range(0, n)`, which does nothing for a negative `n`. Zero rows or zero
columns make the cell-size division fail with `ZeroDivisionError`. That
happens after the path checks, and it is modelled as the `DivisionByZero`
outcome.

The command raises Django's `CommandError` with the messages "That path
doesn't exist" (line 105) and "That path doesn't appear to be writable"
(line 108). `str.format` widens the field for a number wider than the
template's width (`{:09}` of 1000000000 has ten digits); `FormatLength`
states this, and `AsnLabelMatchesPattern` states when the default label
still fits the nine-digit pattern.

## Model

| member | source | states |
|---|---|---|
| Decimal.ToDecimal | src/documents/management/commands/generate_asn_labels.py:136 | the decimal text of a number is all digits and starts with '0' exactly when the number is zero |
| Decimal.ZeroPad | src/documents/management/commands/generate_asn_labels.py:39 | `{:0W}` padding: the result is `max(W, len)` long, ends with the digits unchanged and is '0' before them; it never truncates |
| Decimal.ValueOfDecimal | src/documents/management/commands/generate_asn_labels.py:136 | reading the decimal text back gives the number |
| Decimal.ValueOfPadded | src/documents/management/commands/generate_asn_labels.py:39 | leading zeros of the padded field do not change the number it reads as |
| Decimal.DecimalOfValue | src/documents/management/commands/generate_asn_labels.py:136 | a digit string without a leading zero is the decimal text of its value (the other direction of the round trip) |
| Decimal.PaddedOfValue | src/documents/management/commands/generate_asn_labels.py:39 | every digit string is the zero-padded text of its own value at its own width |
| Decimal.DecimalLength | src/documents/management/commands/generate_asn_labels.py:39 | the number has at most k digits exactly when it is below 10^k, i.e. when the field does not grow |
| LabelFormat.Body | src/documents/management/commands/generate_asn_labels.py:136 | the formatted field is all digits for n >= 0, and a '-' followed by digits for n < 0 |
| LabelFormat.Format | src/documents/management/commands/generate_asn_labels.py:136 | definition of `template.format(n)` as prefix, field and suffix; its inverse `Parse` and the lemmas `ParseFormat` and `FormatInjective` state its meaning |
| LabelFormat.BodyRoundTrip | src/documents/management/commands/generate_asn_labels.py:136 | the field of any integer, negative ones included, reads back as that integer |
| LabelFormat.ParseFormat | src/documents/management/commands/generate_asn_labels.py:136 | `Parse(t, Format(t, n)) == Some(n)` for every template and integer |
| LabelFormat.FormatInjective | src/documents/management/commands/generate_asn_labels.py:136 | two numbers get the same label exactly when they are equal |
| LabelFormat.FormatLength | src/documents/management/commands/generate_asn_labels.py:39 | label length is prefix + suffix + max(width, digits) for n >= 0, and prefix + suffix + max(width, 1 + digits) for n < 0: the sign counts toward the width |
| LabelFormat.AsnLabelMatchesPattern | src/documents/tests/test_management_generate_asn_labels.py:20 | a default label matches `<ASN:([0-9]{9})>` exactly when 0 <= n < 10^9 |
| LabelFormat.AsnPatternIsLabel | src/documents/tests/test_management_generate_asn_labels.py:20 | every string the pattern accepts is the default label of the number it spells and parses back to it |
| SheetLayout.RowsAt | src/documents/management/commands/generate_asn_labels.py:130-139 | in a page body, row r column c holds the cell for `first + r*columns + c`, and position `columns` of each row is its line break |
| SheetLayout.PageAt | src/documents/management/commands/generate_asn_labels.py:129-139 | within one page, row r column c sits at offset `1 + r*(columns+1) + c` after the page start and holds the cell for `start + r*columns + c`, or the row's break when c == columns |
| SheetLayout.PageStartAt | src/documents/management/commands/generate_asn_labels.py:127-129 | page p begins at position `p * (1 + rows*(columns+1))` with a page start |
| SheetLayout.PagesAt | src/documents/management/commands/generate_asn_labels.py:127-139 | page p, row r, column c holds `format(asn_start + p*rows*columns + r*columns + c)`; the row's break follows its last cell |
| SheetLayout.PagesLength | src/documents/management/commands/generate_asn_labels.py:127-139 | the trace has `pages * (1 + rows*(columns+1))` events |
| SheetLayout.PagesLabels | src/documents/management/commands/generate_asn_labels.py:126-138 | the cell texts in emission order are the labels of `pages*rows*columns` consecutive numbers |
| SheetLayout.PagesBreaks | src/documents/management/commands/generate_asn_labels.py:127-139 | exactly `pages` page starts and `pages*rows` line breaks |
| SheetLayout.RepeatSnoc | src/documents/management/commands/generate_asn_labels.py:127-130 | one more loop iteration appends exactly one more block to the layout built so far |
| LabelCommand.Count | src/documents/management/commands/generate_asn_labels.py:127 | definition: the number of iterations of `range(0, n)`, which is n for n >= 0 and nothing for n < 0; `NothingPrinted` states its consequence for the run |
| LabelCommand.NothingPrinted | src/documents/management/commands/generate_asn_labels.py:127-133 | the run prints no label exactly when the page, row or column count is zero or negative |
| LabelCommand.MessagesDistinct | src/documents/management/commands/generate_asn_labels.py:104-108 | the two path failures and the division failure report different messages |
| LabelCommand.Message | src/documents/management/commands/generate_asn_labels.py:104-108 | the text each failure reports (the two `CommandError` messages, and Python's text for a float division by zero); never empty |
| LabelCommand.EmitRow | src/documents/management/commands/generate_asn_labels.py:131-139 | the column loop emits the row's cells then its line break, and advances the counter by `columns` |
| LabelCommand.EmitPage | src/documents/management/commands/generate_asn_labels.py:129-139 | the row loop emits a page start and `rows` rows, and advances the counter by `rows*columns` |
| LabelCommand.EmitPages | src/documents/management/commands/generate_asn_labels.py:127-139 | the page loop, run for `pages` iterations, emits exactly the reference layout and advances the counter by `pages*rows*columns` |
| LabelCommand.Render | src/documents/management/commands/generate_asn_labels.py:126-139 | the page loop produces the reference layout, and the counter ends at `asn_start + Count(pages)*Count(rows)*Count(columns)`, i.e. unchanged when any count is <= 0 |
| LabelCommand.Handle | src/documents/management/commands/generate_asn_labels.py:99-146 | missing path, then unwritable path, then zero rows or columns fail in that order with no output; otherwise the result is the layout and the file name |
| LabelCommand.AsnEnd | src/documents/management/commands/generate_asn_labels.py:110-114 | definition of `asn_end` from the raw options; `EndMatchesCounter` and `NegativePagesNameEmptyRange` state how it relates to the labels printed |
| LabelCommand.Document | src/documents/management/commands/generate_asn_labels.py:126-139 | definition of the reference layout with the `range` counts; `Render` and `Handle` prove the loops produce it |
| LabelCommand.FileName | src/documents/management/commands/generate_asn_labels.py:141-144 | definition of the file name; `FileNameNamesRange` and `AsnFileNameReadsBack` state what it names |
| LabelCommand.DocumentLabels | src/documents/management/commands/generate_asn_labels.py:126-138 | the k-th printed label is `format(asn_start + k)`, for exactly `Count(pages)*Count(rows)*Count(columns)` labels, i.e. none when any count is <= 0 |
| LabelCommand.LabelReadsBack | src/documents/management/commands/generate_asn_labels.py:136 | parsing the k-th printed label gives `asn_start + k` |
| LabelCommand.AsnLabelAt | src/documents/tests/test_management_generate_asn_labels.py:20 | under the default template, every printed label whose number fits nine digits matches `<ASN:([0-9]{9})>` and reads back as its number |
| LabelCommand.LabelsDistinct | src/documents/management/commands/generate_asn_labels.py:126-138 | no label is printed twice |
| LabelCommand.DocumentBreaks | src/documents/management/commands/generate_asn_labels.py:127-139 | one page start per page and one line break per row of every page |
| LabelCommand.EndMatchesCounter | src/documents/management/commands/generate_asn_labels.py:110-114 | with non-negative counts, `asn_end` is one less than the counter after the loop, i.e. the last number printed |
| LabelCommand.FileNameNamesRange | src/documents/management/commands/generate_asn_labels.py:141-144 | when at least one label is printed, the file name is the first printed label, "-", the last printed label, ".pdf" |
| LabelCommand.NegativePagesNameEmptyRange | src/documents/management/commands/generate_asn_labels.py:110-114 | with a negative page count and positive rows and columns nothing is printed, yet `asn_end` falls below `asn_start - 1` |
| LabelCommand.AsnFileNameReadsBack | src/documents/management/commands/generate_asn_labels.py:141-144 | under the default template and in-range ASNs, the 35-character file name splits back into its start and end ASN |
| LabelCommand.DefaultRun | src/documents/management/commands/generate_asn_labels.py:27-70 | the defaults print, on one page, exactly 56 labels, the k-th being the label of 1 + k, from `<ASN:000000001>` to `<ASN:000000056>` |
| LabelCommand.DefaultFileName | src/documents/management/commands/generate_asn_labels.py:141-144 | the default file name is `<ASN:000000001>-<ASN:000000056>.pdf` |
| LabelCommand.TenPages | src/documents/tests/test_management_generate_asn_labels.py:55-65 | `--pages 10` gives ten page starts |
| LabelCommand.HighStart | src/documents/tests/test_management_generate_asn_labels.py:67-80 | from 990000001 the first and last labels are `<ASN:990000001>` and `<ASN:990000056>`, match the pattern and read back as their numbers |
| LabelCommand.LogLineAsWritten | src/documents/management/commands/generate_asn_labels.py:148 | the closing line as the source builds it: both placeholders stay literal text, so the line does not depend on the options |
| LabelCommand.LogLineAsWrittenHidesRange | src/documents/management/commands/generate_asn_labels.py:148 | as written, the defaults and `--asn_start 990000001` log the same closing line although their ranges differ |
| LabelCommand.LogLineReadsBack | src/documents/management/commands/generate_asn_labels.py:148 | the corrected closing line reads back as the run's start and end ASN |
| LabelCommand.LogLineNamesRange | src/documents/management/commands/generate_asn_labels.py:148 | two runs log the same corrected line exactly when they cover the same range |

## Left out

- PDF rendering (lines 116-121, 146): the font, text colour, margin, named sheet sizes and PDF serialisation belong to the FPDF library. Only the order of `add_page`, `cell` and `ln` calls is modelled. The `--sheet_size`, `--color` and `--fontsize` options therefore have no counterpart. An unknown `--sheet_size` makes the FPDF constructor raise at line 116, before the division at line 123; `Handle`'s success outcome assumes a sheet size FPDF supports.
- Cell geometry (lines 123-124): the cell width and height are floating-point fractions of the printable area. Only their failure on zero columns or zero rows is kept.
- Output path (line 146): `os.path.abspath(os.path.join(target, filename))` and the file write are I/O. The model returns the file name, and the caller joins it to the target folder.
- File-system checks (lines 104-108): `os.path.exists` and `os.access` are taken as two booleans in `Target`.
- Logging: the per-page log line (line 128) is left out. The closing line (line 148) is modelled only for the finding below.
- Django and argparse plumbing: option parsing, type conversion errors and the `target` positional argument are out of scope.
- General `str.format`: the template is a prefix, one `{:0W}` field and a suffix. Other format specs, several fields, and templates without a field are out of scope.
- The text the tests extract with pdfminer (the `"\n\n"` separators and the trailing form feed) is produced by the renderer and the extractor, not by the command.

## Findings

| source | as written | input that shows it | evidently intended | confidence | as-written member | corrected member |
|---|---|---|---|---|---|---|
| src/documents/management/commands/generate_asn_labels.py:148 | of the two adjacent string literals only the first is an f-string, so `{options['asn_start']}` and `{asn_end}` are logged verbatim | any run, e.g. the defaults and `--asn_start 990000001` log the same line | the closing line names the first and last ASN of the run | high (not executed) | LabelCommand.LogLineAsWrittenHidesRange | LabelCommand.LogLineNamesRange |
