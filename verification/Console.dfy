/** The text console: a 25-row window on a page without end. */
module Console {
  import opened Bytes

  const WIDTH := 80
  const HEIGHT := 25
  const CELLS := WIDTH * HEIGHT
  const NEWLINE: byte := 10
  const TAB: byte := 9
  const SPACE: byte := 32

  type cell = x: int | 0 <= x < 0x1_0000

  /** The low byte of a cell is the character, the high byte its attribute. */
  predicate Looks(g: cell, c: byte, attribute: byte) {
    g % 256 == c && g / 256 == attribute
  }

  /** Attribute and character as the 16-bit store leaves them: `char` is signed, so the sign of a
      byte above the ASCII range overwrites the attribute. */
  function Glyph(color: byte, c: byte): (g: cell)
    ensures Looks(g, c, if c < 128 then color else 255)
  {
    if c < 128 then color * 0x100 + c else 0xFF00 + c
  }

  // ----- The page -----

  /** Cells written so far on a page 80 wide, and the position of the next one. */
  datatype Page = Page(cells: map<nat, cell>, pos: nat)

  const BLANK := Page(map[], 0)

  function LineStart(pos: nat): nat { (pos / WIDTH + 1) * WIDTH }

  function Type(pg: Page, color: byte, c: byte): Page {
    Page(pg.cells[pg.pos := Glyph(color, c)], pg.pos + 1)
  }

  /** Spaces up to the next tab stop. */
  function Tabbed(pg: Page, color: byte): (r: Page)
    ensures r.pos % 8 == 0 && pg.pos < r.pos <= pg.pos + 8
    decreases 8 - pg.pos % 8
  {
    var r := Type(pg, color, SPACE);
    if r.pos % 8 == 0 then r else Tabbed(r, color)
  }

  /** One character laid out. */
  function Put(pg: Page, color: byte, c: byte): Page {
    if c == NEWLINE then Page(pg.cells, LineStart(pg.pos))
    else if c == TAB then Tabbed(pg, color)
    else Type(pg, color, c)
  }

  function Lay(pg: Page, color: byte, text: seq<byte>): Page
    decreases |text|
  {
    if text == [] then pg else Put(Lay(pg, color, text[..|text| - 1]), color, text[|text| - 1])
  }

  /** The part of a text that `console_print` shows: up to the first NUL. */
  function Shown(text: seq<byte>): (r: seq<byte>)
    ensures r <= text && (forall i :: 0 <= i < |r| ==> r[i] != 0) && (|r| < |text| ==> text[|r|] == 0)
  {
    if text == [] || text[0] == 0 then [] else [text[0]] + Shown(text[1..])
  }

  /** Nothing is written at or behind the current position. */
  predicate Sound(pg: Page) {
    forall q :: q in pg.cells ==> q < pg.pos
  }

  /** First visible row. */
  function Top(pg: Page): nat {
    if pg.pos / WIDTH < HEIGHT then 0 else pg.pos / WIDTH - (HEIGHT - 1)
  }

  /** What an unwritten cell looks like: black where the screen was cleared, an empty cell in the
      current colour on a row that has scrolled into view. */
  function CellAt(pg: Page, color: byte, q: nat): cell {
    if q in pg.cells then pg.cells[q] else if q < CELLS then 0 else color * 0x100
  }

  /** The last 25 rows. */
  function Window(pg: Page, color: byte): (w: seq<cell>)
    ensures |w| == CELLS && forall k :: 0 <= k < CELLS ==> w[k] == CellAt(pg, color, WIDTH * Top(pg) + k)
  {
    seq<cell>(CELLS, k requires 0 <= k < CELLS => CellAt(pg, color, WIDTH * Top(pg) + k))
  }

  /** How a text is cut into calls makes no difference. */
  lemma {:induction false} LayAppend(pg: Page, color: byte, a: seq<byte>, b: seq<byte>)
    ensures Lay(pg, color, a + b) == Lay(Lay(pg, color, a), color, b)
    decreases |b|
  {
    if b == [] {
      assert a + b == a;
    } else {
      var n := |b| - 1;
      assert (a + b)[..|a + b| - 1] == a + b[..n];
      LayAppend(pg, color, a, b[..n]);
    }
  }

  lemma {:induction false} LaySound(pg: Page, color: byte, text: seq<byte>)
    requires Sound(pg)
    ensures Sound(Lay(pg, color, text))
    decreases |text|
  {
    if text != [] {
      LaySound(pg, color, text[..|text| - 1]);
      TabbedSound(Lay(pg, color, text[..|text| - 1]), color);
    }
  }

  lemma {:induction false} TabbedSound(pg: Page, color: byte)
    requires Sound(pg)
    ensures Sound(Tabbed(pg, color))
    decreases 8 - pg.pos % 8
  {
    var r := Type(pg, color, SPACE);
    if r.pos % 8 != 0 { TabbedSound(r, color); }
  }

  // ----- What the page looks like -----

  predicate Plain(line: seq<byte>) {
    |line| < WIDTH && forall i :: 0 <= i < |line| ==> line[i] != NEWLINE && line[i] != TAB
  }

  function Lines(ls: seq<seq<byte>>): seq<byte>
    decreases |ls|
  {
    if ls == [] then [] else Lines(ls[..|ls| - 1]) + ls[|ls| - 1] + [NEWLINE]
  }

  lemma {:induction false} PlainRun(pg: Page, color: byte, line: seq<byte>)
    requires Sound(pg) && Plain(line)
    ensures var r := Lay(pg, color, line);
            && r.pos == pg.pos + |line|
            && (forall q :: q < pg.pos ==>
                              (q in r.cells <==> q in pg.cells) && (q in pg.cells ==> r.cells[q] == pg.cells[q]))
            && (forall q :: pg.pos <= q < pg.pos + |line| ==>
                              q in r.cells && r.cells[q] == Glyph(color, line[q - pg.pos]))
    decreases |line|
  {
    if line != [] { PlainRun(pg, color, line[..|line| - 1]); }
  }

  /** How a character comes out: in the current colour, or with the attribute 255 above the ASCII range. */
  predicate Prints(g: cell, color: byte, c: byte) {
    Looks(g, c, if c < 128 then color else 255)
  }

  /** Coloured spaces have been added up to the position of `u`. */
  ghost predicate Spaced(pg: Page, u: Page, color: byte) {
    && pg.pos <= u.pos
    && (forall q :: pg.pos <= q < u.pos ==> q in u.cells && Looks(u.cells[q], 32, color))
    && (forall q :: q < pg.pos ==>
                      (q in u.cells <==> q in pg.cells) && (q in pg.cells ==> u.cells[q] == pg.cells[q]))
  }

  lemma SpacedOn(pg: Page, u: Page, v: Page, color: byte)
    requires Spaced(pg, u, color) && Spaced(u, v, color)
    ensures Spaced(pg, v, color)
  {
    hide Looks;
  }

  lemma SpaceTyped(pg: Page, color: byte)
    ensures Spaced(pg, Type(pg, color, SPACE), color)
  {
    hide Looks;
  }

  /** The cells that a tab passes are spaces. */
  lemma {:induction false} TabbedCells(pg: Page, color: byte)
    ensures Spaced(pg, Tabbed(pg, color), color)
    decreases 8 - pg.pos % 8
  {
    hide Spaced;
    var r := Type(pg, color, SPACE);
    SpaceTyped(pg, color);
    if r.pos % 8 != 0 {
      TabbedCells(r, color);
      SpacedOn(pg, r, Tabbed(r, color), color);
    }
  }

  /** Row `r` holds this line and nothing else. */
  ghost predicate RowShows(pg: Page, color: byte, r: nat, line: seq<byte>) {
    forall q :: WIDTH * r <= q < WIDTH * (r + 1) ==>
                  if q - WIDTH * r < |line| then q in pg.cells && Prints(pg.cells[q], color, line[q - WIDTH * r])
                  else q !in pg.cells
  }

  /** Lines that fit are laid one to a row, each from the left margin. */
  lemma {:induction false} LinesAreRows(color: byte, ls: seq<seq<byte>>)
    requires forall l :: l in ls ==> Plain(l)
    ensures var pg := Lay(BLANK, color, Lines(ls));
            pg.pos == WIDTH * |ls| && Sound(pg) && forall r :: 0 <= r < |ls| ==> RowShows(pg, color, r, ls[r])
    decreases |ls|
  {
    hide RowShows, Lay, Put, Sound;
    LayNothing(color);
    if ls != [] {
      var n := |ls| - 1;
      var ks, l := ls[..n], ls[n];
      LinesAreRows(color, ks);
      assert l in ls;
      var p := Lay(BLANK, color, Lines(ks));
      LayAppend(BLANK, color, Lines(ks), l + [NEWLINE]);
      assert Lines(ls) == Lines(ks) + (l + [NEWLINE]);
      NextRow(p, color, n, l);
      forall r | 0 <= r < n ensures RowShows(Lay(p, color, l + [NEWLINE]), color, r, ls[r]) {
        assert RowShows(p, color, r, ks[r]);
      }
    }
  }

  lemma LayNothing(color: byte)
    ensures Lay(BLANK, color, Lines([])) == BLANK && Sound(BLANK)
  {
  }

  lemma NextRow(p: Page, color: byte, n: nat, l: seq<byte>)
    requires Sound(p) && Plain(l) && p.pos == WIDTH * n
    ensures var q := Lay(p, color, l + [NEWLINE]);
            && q.pos == WIDTH * (n + 1) && Sound(q) && RowShows(q, color, n, l)
            && forall r, line :: 0 <= r < n && RowShows(p, color, r, line) ==> RowShows(q, color, r, line)
  {
    hide Lay, Put;
    PlainRun(p, color, l);
    LaySound(p, color, l);
    var q := Lay(p, color, l);
    BreakLine(p, color, l);
  }

  lemma BreakLine(p: Page, color: byte, l: seq<byte>)
    ensures var q := Lay(p, color, l); Lay(p, color, l + [NEWLINE]) == Page(q.cells, LineStart(q.pos))
  {
    assert (l + [NEWLINE])[..|l|] == l;
  }

  // ----- The console -----

  class Console {
    const memory: array<cell>
    var color: byte
    var cursor: cell
    var active: bool
    ghost var page: Page

    constructor (memory: array<cell>)
      requires memory.Length == CELLS
      ensures this.memory == memory && color == 7 && cursor == 0xFFFF && active
    {
      this.memory, color, cursor, active := memory, 7, 0xFFFF, true;
      page := BLANK;
    }

    /** The screen is the window on the page, and the cursor stands where the page goes on. */
    ghost predicate Valid()
      reads this, memory
    {
      && memory.Length == CELLS && Sound(page) && memory[..] == Window(page, color)
      && cursor == page.pos - WIDTH * Top(page) < CELLS
    }

    /** `port` is what the hardware cursor reads as. */
    method Update(port: cell)
      modifies this`cursor
      ensures cursor == if !active then old(cursor) else if old(cursor) == 0xFFFF then port
                        else if old(cursor) < CELLS then old(cursor) else CELLS - 1
    {
      if !active { return; }
      if cursor == 0xFFFF {
        cursor := port;
      } else if cursor >= CELLS {
        cursor := CELLS - 1;
      }
    }

    /** Everything has moved up by `n` cells, and coloured blanks have come in. */
    ghost predicate Shifted(m: seq<cell>, r: seq<cell>, n: nat)
      reads this
    {
      && |m| == |r| == CELLS
      && forall k :: 0 <= k < CELLS ==> r[k] == if k + n < CELLS then m[k + n] else color * 0x100
    }

    lemma ShiftedOn(m: seq<cell>, was: seq<cell>, r: seq<cell>, n: nat)
      requires Shifted(m, was, n) && Shifted(was, r, WIDTH)
      ensures Shifted(m, r, n + WIDTH)
    {
    }

    method Scroll(times: int)
      requires memory.Length == CELLS
      modifies memory
      ensures !active || times < 0 ==> memory[..] == old(memory[..])
      ensures active && times >= 0 ==> forall k :: 0 <= k < CELLS ==>
                                                     memory[k] == if k + WIDTH * times < CELLS then
                                                       old(memory[k + WIDTH * times]) else color * 0x100
    {
      if !active || times < 0 { return; }
      ghost var m := memory[..];
      var i := 0;
      while i < times
        invariant 0 <= i <= times && Shifted(m, memory[..], WIDTH * i)
      {
        ghost var was := memory[..];
        ScrollOne();
        ShiftedOn(m, was, memory[..], WIDTH * i);
        i := i + 1;
      }
      assert forall k :: 0 <= k < CELLS ==> memory[k] == memory[..][k];
    }

    method ScrollOne()
      requires memory.Length == CELLS
      modifies memory
      ensures Shifted(old(memory[..]), memory[..], WIDTH)
    {
      ghost var m := memory[..];
      var j := 0;
      while j < WIDTH * (HEIGHT - 1)
        invariant 0 <= j <= WIDTH * (HEIGHT - 1)
        invariant forall k :: 0 <= k < j ==> memory[k] == m[k + WIDTH]
        invariant forall k :: j <= k < CELLS ==> memory[k] == m[k]
      {
        memory[j] := memory[j + WIDTH];
        j := j + 1;
      }
      while j < CELLS
        invariant WIDTH * (HEIGHT - 1) <= j <= CELLS
        invariant forall k :: 0 <= k < WIDTH * (HEIGHT - 1) ==> memory[k] == m[k + WIDTH]
        invariant forall k :: WIDTH * (HEIGHT - 1) <= k < j ==> memory[k] == color * 0x100
      {
        memory[j] := color * 0x100;
        j := j + 1;
      }
    }

    method Clear(port: cell)
      requires memory.Length == CELLS && active
      modifies this`cursor, this`page, memory
      ensures Valid() && page == BLANK && cursor == 0
    {
      Update(port);
      var i := 0;
      while i < CELLS
        invariant 0 <= i <= CELLS
        invariant forall k :: 0 <= k < i ==> memory[k] == 0
      {
        memory[i] := 0;
        i := i + 1;
      }
      cursor := 0;
      page := BLANK;
      Update(port);
    }

    /** The screen shows the page before it is scrolled: the cursor may stand just behind the end. */
    ghost predicate Ahead(pg: Page, top: nat)
      reads this, memory
    {
      && memory.Length == CELLS && Sound(pg) && cursor == pg.pos - WIDTH * top <= CELLS
      && forall k :: 0 <= k < CELLS ==> memory[k] == CellAt(pg, color, WIDTH * top + k)
    }

    /** A cell is written and the cursor moves on. */
    method Emit(c: byte, ghost pg: Page, ghost top: nat)
      requires Ahead(pg, top) && cursor < CELLS
      modifies this`cursor, memory
      ensures Ahead(Type(pg, color, c), top) && cursor == old(cursor) + 1
    {
      memory[cursor] := Glyph(color, c);
      cursor := cursor + 1;
    }

    method Tabulate(ghost top: nat)
      requires Ahead(page, top) && cursor < CELLS
      modifies this`cursor, memory
      ensures Ahead(Tabbed(page, color), top)
    {
      hide Ahead, Tabbed, Type;
      ghost var pg := page;
      AheadBounds(pg, top);
      var tablen := 8 - cursor % 8;
      var j := 0;
      while j < tablen
        invariant 0 <= j <= tablen && cursor == old(cursor) + j && Ahead(pg, top) && pg.pos == page.pos + j
        invariant if j < tablen then Tabbed(pg, color) == Tabbed(page, color) else pg == Tabbed(page, color)
      {
        TabbedStep(pg, page, j);
        Emit(SPACE, pg, top);
        pg := Type(pg, color, SPACE);
        j := j + 1;
      }
    }

    lemma TabbedStep(pg: Page, was: Page, j: nat)
      requires pg.pos == was.pos + j && j < 8 - was.pos % 8
      ensures var r := Type(pg, color, SPACE);
              r.pos == pg.pos + 1 && Tabbed(pg, color) == if j + 1 < 8 - was.pos % 8 then Tabbed(r, color) else r
    {
    }

    lemma AheadBounds(pg: Page, top: nat)
      requires Ahead(pg, top)
      ensures cursor == pg.pos - WIDTH * top <= CELLS && cursor % 8 == pg.pos % 8
    {
    }

    /** One character, without the scrolling. */
    method Place(c: byte)
      requires Valid() && c != 0
      modifies this`cursor, memory
      ensures Ahead(Put(page, color, c), Top(page))
    {
      ghost var top := Top(page);
      WindowIsAhead();
      if c == NEWLINE {
        Return(top);
      } else if c == TAB {
        Tabulate(top);
      } else {
        Emit(c, page, top);
      }
    }

    method Return(ghost top: nat)
      requires Ahead(page, top) && cursor < CELLS
      modifies this`cursor
      ensures Ahead(Page(page.cells, LineStart(page.pos)), top)
    {
      cursor := (cursor / WIDTH + 1) * WIDTH;
    }

    lemma WindowIsAhead()
      requires memory.Length == CELLS && Sound(page) && cursor == page.pos - WIDTH * Top(page) < CELLS
      ensures memory[..] == Window(page, color) <==> Ahead(page, Top(page))
    {
      hide CellAt;
      assert memory[..] == Window(page, color) <==> forall k :: 0 <= k < CELLS ==>
                                                                  memory[..][k] == Window(page, color)[k];
      assert forall k :: 0 <= k < CELLS ==> memory[k] == memory[..][k];
    }

    method Step(c: byte)
      requires Valid() && active && c != 0
      modifies this`cursor, this`page, memory
      ensures Valid() && page == Put(old(page), color, c)
      ensures c != NEWLINE && c != TAB && old(cursor) + 1 < CELLS ==>
                cursor == old(cursor) + 1 && Prints(memory[old(cursor)], color, c)
      ensures c == TAB && old(cursor) / 8 * 8 + 8 < CELLS ==>
                && cursor == old(cursor) / 8 * 8 + 8
                && forall k :: old(cursor) <= k < cursor ==> Looks(memory[k], 32, color)
      ensures c == NEWLINE && old(cursor) / 80 * 80 + 80 < CELLS ==> cursor == old(cursor) / 80 * 80 + 80
    {
      hide Put, Looks, CellAt;
      ghost var top, pg := Top(page), Put(page, color, c);
      Place(c);
      page := pg;
      PlaceTop(top, c, old(page));
      if cursor >= CELLS {
        ScrollUp(top);
      } else {
        WindowIsAhead();
      }
      Stepped(old(page), c, old(cursor));
    }

    lemma Stepped(was: Page, c: byte, at: nat)
      requires Valid() && page == Put(was, color, c) && Sound(was) && at == was.pos - WIDTH * Top(was) < CELLS
      ensures c != NEWLINE && c != TAB && at + 1 < CELLS ==> cursor == at + 1 && Prints(memory[at], color, c)
      ensures c == TAB && at / 8 * 8 + 8 < CELLS ==>
                cursor == at / 8 * 8 + 8 && forall k :: at <= k < cursor ==> Looks(memory[k], 32, color)
      ensures c == NEWLINE && at / 80 * 80 + 80 < CELLS ==> cursor == at / 80 * 80 + 80
    {
      hide Put, Looks, CellAt, Window;
      var top := Top(was);
      PutCells(was, color, c, top);
      if page.pos - WIDTH * top < CELLS {
        TopStays(was, page);
        forall k | at <= k < cursor && c != NEWLINE
          ensures k < CELLS && if c == TAB then Looks(memory[k], 32, color) else Prints(memory[k], color, c) {
          ScreenCell(k);
          assert was.pos <= WIDTH * top + k < page.pos;
          Written(page, WIDTH * top + k);
        }
      }
    }

    lemma TopStays(was: Page, pg: Page)
      requires was.pos <= pg.pos && was.pos - WIDTH * Top(was) < CELLS && pg.pos - WIDTH * Top(was) < CELLS
      ensures Top(pg) == Top(was)
    {
    }


    /** Where the next character goes after `c`, and what the cells in between look like. */
    lemma PutCells(pg: Page, color: byte, c: byte, top: nat)
      requires Sound(pg) && WIDTH * top <= pg.pos
      ensures var r, at := Put(pg, color, c), pg.pos - WIDTH * top;
              && (c == NEWLINE ==> r.pos - WIDTH * top == at / 80 * 80 + 80)
              && (c == TAB ==> r.pos - WIDTH * top == at / 8 * 8 + 8)
              && (c != NEWLINE && c != TAB ==> r.pos - WIDTH * top == at + 1)
              && (c != NEWLINE ==>
                    forall q :: pg.pos <= q < r.pos ==>
                                  q in r.cells && if c == TAB then Looks(r.cells[q], 32, color)
                                  else Prints(r.cells[q], color, c))
    {
      hide Looks;
      if c == TAB {
        TabbedCells(pg, color);
        TabStop(pg, color, top);
      }
    }

    lemma TabStop(pg: Page, color: byte, top: nat)
      requires WIDTH * top <= pg.pos
      ensures Tabbed(pg, color).pos - WIDTH * top == (pg.pos - WIDTH * top) / 8 * 8 + 8
    {
    }

    /** The screen moves up by a row and the cursor goes to the start of the last one. */
    method ScrollUp(ghost top: nat)
      requires Ahead(page, top) && cursor == CELLS && active && Top(page) == top + 1
      modifies this`cursor, memory
      ensures Valid()
    {
      hide CellAt, Window, Top, Sound;
      ghost var m := memory[..];
      Scroll(1);
      cursor := (HEIGHT - 1) * WIDTH;
      Scrolled(m, memory[..], page, color, top);
    }

    lemma Scrolled(m: seq<cell>, r: seq<cell>, pg: Page, color: byte, top: nat)
      requires |m| == |r| == CELLS && Sound(pg) && pg.pos == WIDTH * top + CELLS && Top(pg) == top + 1
      requires forall k :: 0 <= k < CELLS ==> m[k] == CellAt(pg, color, WIDTH * top + k)
      requires forall k :: 0 <= k < CELLS ==> r[k] == if k + WIDTH < CELLS then m[k + WIDTH] else color * 0x100
      ensures r == Window(pg, color) && (HEIGHT - 1) * WIDTH == pg.pos - WIDTH * Top(pg)
    {
      BlankBelow(pg, color, top);
      hide CellAt, Sound, Top;
      var w := Window(pg, color);
      forall k | 0 <= k < CELLS ensures r[k] == w[k] {
        assert w[k] == CellAt(pg, color, WIDTH * (top + 1) + k);
      }
    }

    /** The row that comes into view is empty. */
    lemma BlankBelow(pg: Page, color: byte, top: nat)
      requires Sound(pg) && pg.pos == WIDTH * top + CELLS
      ensures forall q :: q >= pg.pos ==> CellAt(pg, color, q) == color * 0x100
    {
    }

    lemma PlaceTop(top: nat, c: byte, was: Page)
      requires Ahead(page, top) && top == Top(was) && page == Put(was, color, c)
      ensures Top(page) == if cursor == CELLS then top + 1 else top
    {
    }

    /** A line that ends before the margin stays in its row. */
    lemma PlainLine(was: Page, pg: Page, text: seq<byte>)
      requires Sound(was) && pg == Lay(was, color, text) && Valid() && page == pg
      ensures var at := was.pos - WIDTH * Top(was);
              Plain(text) && at % 80 + |text| < 80 ==>
                && cursor == at + |text|
                && forall i :: 0 <= i < |text| ==> Prints(memory[at + i], color, text[i])
    {
      hide Lay, Looks, Glyph, Window, Top, Sound, CellAt;
      var top, at := Top(was), was.pos - WIDTH * Top(was);
      if Plain(text) && at % 80 + |text| < 80 {
        PlainRun(was, color, text);
        SameRow(was, pg, |text|);
        forall i | 0 <= i < |text| ensures Prints(memory[at + i], color, text[i]) {
          ScreenCell(at + i);
          assert pg.cells[was.pos + i] == Glyph(color, text[i]);
          Written(pg, was.pos + i);
        }
      }
    }

    lemma ScreenCell(k: nat)
      requires Valid() && k < CELLS
      ensures memory[k] == CellAt(page, color, WIDTH * Top(page) + k)
    {
      assert memory[k] == memory[..][k];
    }

    lemma Written(pg: Page, q: nat)
      requires q in pg.cells
      ensures CellAt(pg, color, q) == pg.cells[q]
    {
    }

    lemma SameRow(was: Page, pg: Page, n: nat)
      requires pg.pos == was.pos + n && (was.pos - WIDTH * Top(was)) % 80 + n < 80
      ensures Top(pg) == Top(was)
    {
    }

    method Print(text: seq<byte>, port: cell)
      requires Valid()
      modifies this`cursor, this`page, memory
      ensures Valid() && page == if active then Lay(old(page), color, Shown(text)) else old(page)
      ensures active && Plain(text) && 0 !in text && old(cursor) % 80 + |text| < 80 ==>
                && cursor == old(cursor) + |text|
                && forall i :: 0 <= i < |text| ==> Prints(memory[old(cursor) + i], color, text[i])
    {
      hide Plain, Prints, Window, Sound, CellAt, Put;
      if !active { return; }
      Update(port);
      var i := 0;
      while i < |text|
        invariant 0 <= i <= |text| && Valid()
        invariant i <= |Shown(text)| && page == Lay(old(page), color, text[..i])
      {
        if text[i] == 0 {
          assert Shown(text) == text[..i] && text[i] in text;
          return;
        }
        Step(text[i]);
        assert text[..i + 1][..i] == text[..i];
        i := i + 1;
      }
      assert Shown(text) == text[..i] == text;
      Update(port);
      PlainLine(old(page), page, text);
    }
  }
}
