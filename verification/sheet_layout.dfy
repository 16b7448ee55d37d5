/** The label sheet as the renderer sees it: a trace of page starts, text
    cells and line breaks. `Pages` is the reference layout the command's
    nested page/row/column loop must produce; the lemmas here state what that
    layout contains (which labels, in which order, where the breaks fall).
    The layout is independent of how a number becomes text: `fmt` is the
    label template applied to a number. */
module SheetLayout {

  /** One call into the renderer: `add_page`, `cell(txt=...)` or `ln`. */
  datatype Event = NewPage | Cell(text: string) | LineBreak

  /** Events of one row: `n` cells labelled `first`, `first + 1`, ... */
  function RowCells(fmt: int -> string, first: int, n: nat): seq<Event> {
    if n == 0 then [] else RowCells(fmt, first, n - 1) + [Cell(fmt(first + n - 1))]
  }

  /** `n` blocks laid end to end; block `q` is `block(first + q * step)`.
      Both the rows of a page and the pages of a sheet have this shape. */
  function Repeat(block: int -> seq<Event>, first: int, step: nat, n: nat): seq<Event>
    decreases n
  {
    if n == 0 then [] else block(first) + Repeat(block, first + step, step, n - 1)
  }

  /** One row, closed by a line break. */
  function RowBlock(fmt: int -> string, columns: nat): int -> seq<Event> {
    first => RowCells(fmt, first, columns) + [LineBreak]
  }

  /** `rows` rows of `columns` cells. */
  function Rows(fmt: int -> string, first: int, rows: nat, columns: nat): seq<Event> {
    Repeat(RowBlock(fmt, columns), first, columns, rows)
  }

  /** One page: a page start and `rows` rows. */
  function PageBlock(fmt: int -> string, rows: nat, columns: nat): int -> seq<Event> {
    first => [NewPage] + Rows(fmt, first, rows, columns)
  }

  /** `pages` pages of `rows` rows of `columns` cells. */
  function Pages(fmt: int -> string, first: int, pages: nat, rows: nat, columns: nat): seq<Event> {
    Repeat(PageBlock(fmt, rows, columns), first, rows * columns, pages)
  }

  /** Number of events on one page. */
  function PageLength(rows: nat, columns: nat): nat {
    1 + rows * (columns + 1)
  }

  /** The texts of the cells, in emission order. */
  function Labels(es: seq<Event>): seq<string> {
    if es == [] then []
    else (if es[0].Cell? then [es[0].text] else []) + Labels(es[1..])
  }

  /** Number of pages started. */
  function PageBreaks(es: seq<Event>): nat {
    if es == [] then 0
    else (if es[0].NewPage? then 1 else 0) + PageBreaks(es[1..])
  }

  /** Number of line breaks. */
  function LineBreaks(es: seq<Event>): nat {
    if es == [] then 0
    else (if es[0].LineBreak? then 1 else 0) + LineBreaks(es[1..])
  }

  /** The labels of `n` consecutive numbers starting at `first`. */
  function Consecutive(fmt: int -> string, first: int, n: nat): (r: seq<string>)
    ensures |r| == n
  {
    seq(n, k => fmt(first + k))
  }

  /** Multiplication distributes over a successor. */
  lemma MulSucc(a: nat, b: nat)
    ensures (a + 1) * b == a * b + b
    ensures a * b >= 0
  {
  }

  /** Offset `o` of block `q` lies inside `n` blocks of `len` positions. */
  lemma {:induction false} BlockBound(q: nat, n: nat, len: nat, o: nat)
    requires q < n && o < len
    ensures q * len + o < n * len
    decreases n
  {
    if q < n - 1 {
      BlockBound(q, n - 1, len, o);
    }
    MulSucc(n - 1, len);
  }

  lemma {:induction false} LabelsAppend(a: seq<Event>, b: seq<Event>)
    ensures Labels(a + b) == Labels(a) + Labels(b)
    decreases |a|
  {
    if a == [] {
      assert a + b == b;
    } else {
      var head := if a[0].Cell? then [a[0].text] else [];
      LabelsAppend(a[1..], b);
      assert (a + b)[1..] == a[1..] + b;
      calc {
        Labels(a + b);
        head + Labels(a[1..] + b);
        head + (Labels(a[1..]) + Labels(b));
        (head + Labels(a[1..])) + Labels(b);
      }
    }
  }

  lemma {:induction false} PageBreaksAppend(a: seq<Event>, b: seq<Event>)
    ensures PageBreaks(a + b) == PageBreaks(a) + PageBreaks(b)
    decreases |a|
  {
    if a == [] {
      assert a + b == b;
    } else {
      PageBreaksAppend(a[1..], b);
      assert (a + b)[1..] == a[1..] + b;
    }
  }

  lemma {:induction false} LineBreaksAppend(a: seq<Event>, b: seq<Event>)
    ensures LineBreaks(a + b) == LineBreaks(a) + LineBreaks(b)
    decreases |a|
  {
    if a == [] {
      assert a + b == b;
    } else {
      LineBreaksAppend(a[1..], b);
      assert (a + b)[1..] == a[1..] + b;
    }
  }

  lemma SingletonCounts(e: Event)
    ensures Labels([e]) == if e.Cell? then [e.text] else []
    ensures PageBreaks([e]) == if e.NewPage? then 1 else 0
    ensures LineBreaks([e]) == if e.LineBreak? then 1 else 0
  {
    assert [e][1..] == [];
  }

  lemma ConsecutiveAppend(fmt: int -> string, first: int, m: nat, n: nat)
    ensures Consecutive(fmt, first, m) + Consecutive(fmt, first + m, n) == Consecutive(fmt, first, m + n)
  {
  }

  lemma {:induction false} RowCellsLength(fmt: int -> string, first: int, n: nat)
    ensures |RowCells(fmt, first, n)| == n
  {
    if n > 0 {
      RowCellsLength(fmt, first, n - 1);
      assert RowCells(fmt, first, n) == RowCells(fmt, first, n - 1) + [Cell(fmt(first + n - 1))];
    }
  }

  /** A row holds its `n` labels in order and no break of either kind. */
  lemma {:induction false} RowCellsLabels(fmt: int -> string, first: int, n: nat)
    ensures Labels(RowCells(fmt, first, n)) == Consecutive(fmt, first, n)
  {
    if n > 0 {
      var e := Cell(fmt(first + n - 1));
      RowCellsLabels(fmt, first, n - 1);
      LabelsAppend(RowCells(fmt, first, n - 1), [e]);
      SingletonCounts(e);
      ConsecutiveAppend(fmt, first, n - 1, 1);
    }
  }

  lemma {:induction false} RowCellsBreaks(fmt: int -> string, first: int, n: nat)
    ensures PageBreaks(RowCells(fmt, first, n)) == 0
    ensures LineBreaks(RowCells(fmt, first, n)) == 0
  {
    if n > 0 {
      var e := Cell(fmt(first + n - 1));
      RowCellsBreaks(fmt, first, n - 1);
      PageBreaksAppend(RowCells(fmt, first, n - 1), [e]);
      LineBreaksAppend(RowCells(fmt, first, n - 1), [e]);
      SingletonCounts(e);
    }
  }


  /** The `c`-th cell of a row carries the label of `first + c`. */
  lemma {:induction false} RowCellsAt(fmt: int -> string, first: int, n: nat, c: nat)
    requires c < n
    ensures |RowCells(fmt, first, n)| == n
    ensures RowCells(fmt, first, n)[c] == Cell(fmt(first + c))
  {
    RowCellsLength(fmt, first, n);
    RowCellsLength(fmt, first, n - 1);
    if c < n - 1 {
      RowCellsAt(fmt, first, n - 1, c);
    }
  }

  /** Blocks of a common length `len` make `n * len` events. */
  lemma {:induction false} RepeatLength(block: int -> seq<Event>, first: int, step: nat, n: nat, len: nat)
    requires forall x :: |block(x)| == len
    ensures |Repeat(block, first, step, n)| == n * len
    decreases n
  {
    if n > 0 {
      RepeatLength(block, first + step, step, n - 1, len);
      MulSucc(n - 1, len);
    }
  }

  /** Position `o` of block `q` is found at `q * len + o`. */
  lemma {:induction false} RepeatAt(block: int -> seq<Event>, first: int, step: nat, n: nat, len: nat, q: nat, o: nat)
    requires forall x :: |block(x)| == len
    requires q < n && o < len
    ensures q * len + o < |Repeat(block, first, step, n)|
    ensures Repeat(block, first, step, n)[q * len + o] == block(first + q * step)[o]
    decreases n
  {
    RepeatLength(block, first, step, n, len);
    BlockBound(q, n, len, o);
    if q > 0 {
      RepeatAt(block, first + step, step, n - 1, len, q - 1, o);
      MulSucc(q - 1, len);
      MulSucc(q - 1, step);
      assert first + step + (q - 1) * step == first + q * step;
      RepeatLength(block, first + step, step, n - 1, len);
      assert q * len + o == len + ((q - 1) * len + o);
    }
  }

  /** If every block carries the `step` labels from its own first number
      on, the blocks together carry `n * step` consecutive labels. */
  lemma {:induction false} RepeatLabels(fmt: int -> string, block: int -> seq<Event>, first: int, step: nat, n: nat)
    requires forall x :: Labels(block(x)) == Consecutive(fmt, x, step)
    ensures Labels(Repeat(block, first, step, n)) == Consecutive(fmt, first, n * step)
    decreases n
  {
    if n > 0 {
      var rest := Repeat(block, first + step, step, n - 1);
      MulSucc(n - 1, step);
      var done: nat := (n - 1) * step;
      LabelsAppend(block(first), rest);
      RepeatLabels(fmt, block, first + step, step, n - 1);
      ConsecutiveAppend(fmt, first, step, done);
    }
  }

  /** Blocks holding `k` page starts each hold `n * k` together. */
  lemma {:induction false} RepeatPageBreaks(block: int -> seq<Event>, first: int, step: nat, n: nat, k: nat)
    requires forall x :: PageBreaks(block(x)) == k
    ensures PageBreaks(Repeat(block, first, step, n)) == n * k
    decreases n
  {
    if n > 0 {
      PageBreaksAppend(block(first), Repeat(block, first + step, step, n - 1));
      RepeatPageBreaks(block, first + step, step, n - 1, k);
      MulSucc(n - 1, k);
    }
  }

  /** Blocks holding `k` line breaks each hold `n * k` together. */
  lemma {:induction false} RepeatLineBreaks(block: int -> seq<Event>, first: int, step: nat, n: nat, k: nat)
    requires forall x :: LineBreaks(block(x)) == k
    ensures LineBreaks(Repeat(block, first, step, n)) == n * k
    decreases n
  {
    if n > 0 {
      LineBreaksAppend(block(first), Repeat(block, first + step, step, n - 1));
      RepeatLineBreaks(block, first + step, step, n - 1, k);
      MulSucc(n - 1, k);
    }
  }

  /** Appending one more block: the form a loop builds the blocks in. */
  lemma {:induction false} RepeatSnoc(block: int -> seq<Event>, first: int, step: nat, n: nat)
    ensures Repeat(block, first, step, n + 1) == Repeat(block, first, step, n) + block(first + n * step)
    decreases n
  {
    if n > 0 {
      RepeatSnoc(block, first + step, step, n - 1);
      MulSucc(n - 1, step);
      assert first + step + (n - 1) * step == first + n * step;
      calc {
        Repeat(block, first, step, n + 1);
        block(first) + Repeat(block, first + step, step, n);
        block(first) + (Repeat(block, first + step, step, n - 1) + block(first + n * step));
        Repeat(block, first, step, n) + block(first + n * step);
      }
    }
  }

  /** A row is its cells and one line break. */
  lemma RowBlockFacts(fmt: int -> string, columns: nat, first: int)
    ensures |RowBlock(fmt, columns)(first)| == columns + 1
    ensures Labels(RowBlock(fmt, columns)(first)) == Consecutive(fmt, first, columns)
    ensures PageBreaks(RowBlock(fmt, columns)(first)) == 0
    ensures LineBreaks(RowBlock(fmt, columns)(first)) == 1
  {
    var cells := RowCells(fmt, first, columns);
    RowCellsLength(fmt, first, columns);
    RowCellsLabels(fmt, first, columns);
    RowCellsBreaks(fmt, first, columns);
    SingletonCounts(LineBreak);
    LabelsAppend(cells, [LineBreak]);
    PageBreaksAppend(cells, [LineBreak]);
    LineBreaksAppend(cells, [LineBreak]);
  }

  lemma RowsLength(fmt: int -> string, first: int, rows: nat, columns: nat)
    ensures |Rows(fmt, first, rows, columns)| == rows * (columns + 1)
  {
    forall x { RowBlockFacts(fmt, columns, x); }
    RepeatLength(RowBlock(fmt, columns), first, columns, rows, columns + 1);
  }

  /** `rows` rows carry `rows * columns` consecutive labels ... */
  lemma RowsLabels(fmt: int -> string, first: int, rows: nat, columns: nat)
    ensures Labels(Rows(fmt, first, rows, columns)) == Consecutive(fmt, first, rows * columns)
  {
    forall x { RowBlockFacts(fmt, columns, x); }
    RepeatLabels(fmt, RowBlock(fmt, columns), first, columns, rows);
  }

  /** ... no page start and one line break per row. */
  lemma RowsBreaks(fmt: int -> string, first: int, rows: nat, columns: nat)
    ensures PageBreaks(Rows(fmt, first, rows, columns)) == 0
    ensures LineBreaks(Rows(fmt, first, rows, columns)) == rows
  {
    forall x { RowBlockFacts(fmt, columns, x); }
    RepeatPageBreaks(RowBlock(fmt, columns), first, columns, rows, 0);
    RepeatLineBreaks(RowBlock(fmt, columns), first, columns, rows, 1);
  }

  /** Within `rows` rows, position `r * (columns + 1) + c` holds the cell
      for number `first + r * columns + c` when `c < columns`, and the row's
      line break when `c == columns`. */
  lemma RowsAt(fmt: int -> string, first: int, rows: nat, columns: nat, r: nat, c: nat)
    requires r < rows && c <= columns
    ensures r * (columns + 1) + c < |Rows(fmt, first, rows, columns)|
    ensures Rows(fmt, first, rows, columns)[r * (columns + 1) + c]
         == if c < columns then Cell(fmt(first + r * columns + c)) else LineBreak
  {
    forall x { RowBlockFacts(fmt, columns, x); }
    RepeatAt(RowBlock(fmt, columns), first, columns, rows, columns + 1, r, c);
    var start := first + r * columns;
    var cells := RowCells(fmt, start, columns);
    assert RowBlock(fmt, columns)(start) == cells + [LineBreak];
    if c < columns {
      RowCellsAt(fmt, start, columns, c);
    }
  }

  /** A page is a page start followed by its rows. */
  lemma PageBlockFacts(fmt: int -> string, rows: nat, columns: nat, first: int)
    ensures |PageBlock(fmt, rows, columns)(first)| == PageLength(rows, columns)
    ensures Labels(PageBlock(fmt, rows, columns)(first)) == Consecutive(fmt, first, rows * columns)
    ensures PageBreaks(PageBlock(fmt, rows, columns)(first)) == 1
    ensures LineBreaks(PageBlock(fmt, rows, columns)(first)) == rows
  {
    var body := Rows(fmt, first, rows, columns);
    RowsLength(fmt, first, rows, columns);
    RowsLabels(fmt, first, rows, columns);
    RowsBreaks(fmt, first, rows, columns);
    SingletonCounts(NewPage);
    LabelsAppend([NewPage], body);
    PageBreaksAppend([NewPage], body);
    LineBreaksAppend([NewPage], body);
  }

  lemma PagesLength(fmt: int -> string, first: int, pages: nat, rows: nat, columns: nat)
    ensures |Pages(fmt, first, pages, rows, columns)| == pages * PageLength(rows, columns)
  {
    forall x { PageBlockFacts(fmt, rows, columns, x); }
    RepeatLength(PageBlock(fmt, rows, columns), first, rows * columns, pages, PageLength(rows, columns));
  }

  /** `pages` pages carry `pages * (rows * columns)` consecutive labels ... */
  lemma PagesLabels(fmt: int -> string, first: int, pages: nat, rows: nat, columns: nat)
    ensures Labels(Pages(fmt, first, pages, rows, columns)) == Consecutive(fmt, first, pages * (rows * columns))
  {
    forall x { PageBlockFacts(fmt, rows, columns, x); }
    RepeatLabels(fmt, PageBlock(fmt, rows, columns), first, rows * columns, pages);
  }

  /** ... exactly `pages` page starts and `pages * rows` line breaks. */
  lemma PagesBreaks(fmt: int -> string, first: int, pages: nat, rows: nat, columns: nat)
    ensures PageBreaks(Pages(fmt, first, pages, rows, columns)) == pages
    ensures LineBreaks(Pages(fmt, first, pages, rows, columns)) == pages * rows
  {
    forall x { PageBlockFacts(fmt, rows, columns, x); }
    RepeatPageBreaks(PageBlock(fmt, rows, columns), first, rows * columns, pages, 1);
    RepeatLineBreaks(PageBlock(fmt, rows, columns), first, rows * columns, pages, rows);
  }

  /** Every page has the same length. */
  lemma PageBlockLength(fmt: int -> string, rows: nat, columns: nat)
    ensures forall x :: |PageBlock(fmt, rows, columns)(x)| == PageLength(rows, columns)
  {
    forall x { PageBlockFacts(fmt, rows, columns, x); }
  }

  /** Within one page, row `r`, column `c` follows the page start at offset
      `1 + r * (columns + 1) + c`. */
  lemma PageAt(fmt: int -> string, start: int, rows: nat, columns: nat, r: nat, c: nat)
    requires r < rows && c <= columns
    ensures 1 + r * (columns + 1) + c < PageLength(rows, columns) == |PageBlock(fmt, rows, columns)(start)|
    ensures PageBlock(fmt, rows, columns)(start)[1 + r * (columns + 1) + c]
         == if c < columns then Cell(fmt(start + r * columns + c)) else LineBreak
  {
    RowsAt(fmt, start, rows, columns, r, c);
    BlockBound(r, rows, columns + 1, c);
    RowsLength(fmt, start, rows, columns);
    assert PageBlock(fmt, rows, columns)(start) == [NewPage] + Rows(fmt, start, rows, columns);
  }

  /** Page `p` starts at position `p * PageLength(rows, columns)` with a
      page start. */
  lemma PageStartAt(fmt: int -> string, first: int, pages: nat, rows: nat, columns: nat, p: nat)
    requires p < pages
    ensures p * PageLength(rows, columns) < |Pages(fmt, first, pages, rows, columns)|
    ensures Pages(fmt, first, pages, rows, columns)[p * PageLength(rows, columns)] == NewPage
  {
    PageBlockLength(fmt, rows, columns);
    RepeatAt(PageBlock(fmt, rows, columns), first, rows * columns, pages, PageLength(rows, columns), p, 0);
  }


  /** Row `r`, column `c` of page `p` lies at offset
      `1 + r * (columns + 1) + c` from the page start and carries number
      `first + p * (rows * columns) + r * columns + c` (or the row's line
      break when `c == columns`). */
  lemma PagesAt(fmt: int -> string, first: int, pages: nat, rows: nat, columns: nat,
                p: nat, r: nat, c: nat)
    requires p < pages && r < rows && c <= columns
    ensures p * PageLength(rows, columns) + 1 + r * (columns + 1) + c < |Pages(fmt, first, pages, rows, columns)|
    ensures Pages(fmt, first, pages, rows, columns)[p * PageLength(rows, columns) + 1 + r * (columns + 1) + c]
         == if c < columns then Cell(fmt(first + p * (rows * columns) + r * columns + c)) else LineBreak
  {
    var len := PageLength(rows, columns);
    MulSucc(p, len);
    MulSucc(rows, columns);
    MulSucc(r, columns + 1);
    var base: nat := p * len;
    var step: nat := rows * columns;
    var o: nat := 1 + r * (columns + 1) + c;
    var start := first + p * step;
    var page := PageBlock(fmt, rows, columns);
    assert o < len && page(start)[o] == if c < columns then Cell(fmt(start + r * columns + c)) else LineBreak by {
      PageAt(fmt, start, rows, columns, r, c);
    }
    assert base + o < |Pages(fmt, first, pages, rows, columns)|
        && Pages(fmt, first, pages, rows, columns)[base + o] == page(start)[o] by {
      PageBlockLength(fmt, rows, columns);
      RepeatAt(page, first, step, pages, len, p, o);
    }
    assert p * PageLength(rows, columns) + 1 + r * (columns + 1) + c == base + o;
  }

}
