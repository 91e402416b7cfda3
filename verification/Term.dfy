/** The terminal of nvboard: lines of text, a window onto the last of them, and three
    levels of dirty flags that say which cells of the screen are out of date. */
module Terms {

  const BACKSPACE: char := 8 as char

  // ----- the text, without any screen

  /** The cursor is always on the last line. */
  datatype Text = Text(lines: seq<string>, x: nat)

  predicate TextOk(t: Text, w: nat) {
    && t.lines != [] && t.x < w
    && forall i :: 0 <= i < |t.lines| ==> |t.lines[i]| == w
  }

  function Blanks(w: nat): (s: string)
    ensures |s| == w && forall i :: 0 <= i < w ==> s[i] == ' '
  {
    seq(w, _ => ' ')
  }

  function Fresh(w: nat): Text { Text([Blanks(w)], 0) }

  function Written(t: Text, w: nat, x: nat, ch: char): (t': Text)
    requires TextOk(t, w) && x < w
    ensures TextOk(t', w)
  {
    var last := |t.lines| - 1;
    t.(lines := t.lines[last := t.lines[last][x := ch]])
  }

  function NewLine(t: Text, w: nat): (t': Text)
    requires TextOk(t.(x := 0), w)
    ensures TextOk(t', w)
  {
    Text(t.lines + [Blanks(w)], 0)
  }

  /** One character: control characters move, others are written and may wrap. */
  function Feed(t: Text, w: nat, ch: char): (t': Text)
    requires TextOk(t, w)
    ensures TextOk(t', w)
  {
    if ch == '\n' then NewLine(t, w)
    else if ch == '\r' then t.(x := 0)
    else if ch == BACKSPACE then (if t.x == 0 then t else Written(t, w, t.x - 1, ' ').(x := t.x - 1))
    else
      var t1 := Written(t, w, t.x, ch);
      if t.x + 1 == w then NewLine(t1, w) else t1.(x := t.x + 1)
  }

  /** What a character does to the lines and the cursor: newline and a full line begin a blank line, return goes to
      the margin, backspace blanks the place to the left if there is one, the others are written. */
  lemma Characters(t: Text, w: nat, ch: char)
    requires TextOk(t, w)
    ensures var t', n := Feed(t, w, ch), |t.lines| - 1;
      && t'.lines[..n] == t.lines[..n]
      && (ch as int == 10 ==> t'.x == 0 && t'.lines == t.lines + [seq(w, _ => ' ')])
      && (ch as int == 13 ==> t'.x == 0 && t'.lines == t.lines)
      && (ch as int == 8 && t.x == 0 ==> t' == t)
      && (ch as int == 8 && t.x > 0 ==>
            t'.x == t.x - 1 && |t'.lines| == n + 1 && t'.lines[n] == t.lines[n][t.x - 1 := ' '])
      && (ch as int !in {8, 10, 13} ==>
            && t'.lines[n] == t.lines[n][t.x := ch]
            && (t.x + 1 < w ==> t'.x == t.x + 1 && |t'.lines| == n + 1)
            && (t.x + 1 == w ==> t'.x == 0 && |t'.lines| == n + 2 && t'.lines[n + 1] == seq(w, _ => ' ')))
  {
  }

  function FeedAll(t: Text, w: nat, s: string): (t': Text)
    requires TextOk(t, w)
    ensures TextOk(t', w)
  {
    if s == "" then t else Feed(FeedAll(t, w, s[..|s| - 1]), w, s[|s| - 1])
  }

  lemma FeedNext(t: Text, w: nat, s: string, n: nat)
    requires TextOk(t, w) && n < |s|
    ensures FeedAll(t, w, s[..n + 1]) == Feed(FeedAll(t, w, s[..n]), w, s[n])
  {
    assert s[..n + 1][..n] == s[..n];
  }

  predicate Printable(c: char) { c != '\n' && c != '\r' && c != BACKSPACE }

  function Joined(lines: seq<string>): string {
    if lines == [] then "" else Joined(lines[..|lines| - 1]) + lines[|lines| - 1]
  }

  /** The full lines and the last one up to the cursor read, one behind the other,
      as s, and the rest is blank. */
  predicate Reads(t: Text, w: nat, s: string)
    requires TextOk(t, w)
  {
    var full, last := t.lines[..|t.lines| - 1], t.lines[|t.lines| - 1];
    s == Joined(full) + last[..t.x] && last[t.x..] == Blanks(w - t.x)
  }

  /** Typing into an empty terminal loses nothing and wraps at the margin. */
  lemma {:induction false} TypedWraps(w: nat, s: string)
    requires w > 0 && forall i :: 0 <= i < |s| ==> Printable(s[i])
    ensures Reads(FeedAll(Fresh(w), w, s), w, s)
  {
    hide Feed, Joined, Reads;
    if s == "" {
      FreshReads(w);
    } else {
      var n := |s| - 1;
      TypedWraps(w, s[..n]);
      TypeOne(FeedAll(Fresh(w), w, s[..n]), w, s[..n], s[n]);
      assert s == s[..n] + [s[n]];
    }
  }

  lemma FreshReads(w: nat)
    requires w > 0
    ensures Reads(Fresh(w), w, "")
  {
  }

  lemma TypeOne(t: Text, w: nat, s: string, ch: char)
    requires TextOk(t, w) && Printable(ch) && Reads(t, w, s)
    ensures Reads(Feed(t, w, ch), w, s + [ch])
  {
    if t.x + 1 == w {
      TypeLast(t, w, s, ch);
    } else {
      TypeInside(t, w, s, ch);
    }
  }

  lemma TypeLast(t: Text, w: nat, s: string, ch: char)
    requires TextOk(t, w) && Reads(t, w, s) && t.x + 1 == w
    ensures Reads(NewLine(Written(t, w, t.x, ch), w), w, s + [ch])
  {
    var full, last := t.lines[..|t.lines| - 1], t.lines[|t.lines| - 1];
    var last' := last[t.x := ch];
    var t1 := Written(t, w, t.x, ch);
    var t' := NewLine(t1, w);
    assert last' == last[..t.x] + [ch];
    assert t'.lines[..|t'.lines| - 1] == t1.lines == full + [last'];
    assert t1.lines[..|t1.lines| - 1] == full;
    assert s + [ch] == Joined(full) + (last[..t.x] + [ch]);
  }

  lemma TypeInside(t: Text, w: nat, s: string, ch: char)
    requires TextOk(t, w) && Reads(t, w, s) && t.x + 1 < w
    ensures Reads(Written(t, w, t.x, ch).(x := t.x + 1), w, s + [ch])
  {
    hide Joined;
    var full, last := t.lines[..|t.lines| - 1], t.lines[|t.lines| - 1];
    var last' := last[t.x := ch];
    assert Written(t, w, t.x, ch).lines == full + [last'];
    assert last'[..t.x + 1] == last[..t.x] + [ch];
    assert last'[t.x + 1..] == last[t.x..][1..];
    assert s + [ch] == Joined(full) + (last[..t.x] + [ch]);
  }

  // ----- the window

  datatype Cell = Glyph(ch: char) | Cursor(focused: bool)

  /** The first line of the window onto a text of n lines. */
  function Top(n: nat, h: nat): nat { if n > h then n - h else 0 }

  /** What the screen should show at row y, column x, cursor aside. */
  function Wanted(lines: seq<string>, top: nat, w: nat, y: nat, x: nat): Cell
    requires x < w && forall i :: 0 <= i < |lines| ==> |lines[i]| == w
  {
    Glyph(if top + y < |lines| then lines[top + y][x] else ' ')
  }

  /** The window shows the last h lines in order, the very last one at its bottom once there are h. */
  lemma WindowShows(lines: seq<string>, h: nat, w: nat, y: nat, x: nat)
    requires x < w && y < h && forall i :: 0 <= i < |lines| ==> |lines[i]| == w
    ensures var shown := if |lines| < h then |lines| else h;
      Wanted(lines, Top(|lines|, h), w, y, x)
      == Glyph(if y < shown then lines[|lines| - shown + y][x] else ' ')
  {
  }

  class Term {
    const w: nat
    const h: nat
    var lines: seq<string>
    var cursorX: nat
    var cursorY: nat
    var screenY: nat
    var isCursorVisible: bool
    var isFocus: bool
    var dirtyScreen: bool
    const dirtyLine: array<bool>
    const dirtyChar: array2<bool>
    const screen: array2<Cell>

    ghost var drawn: bool         // the cursor has been drawn since the screen was last cleared

    ghost function T(): Text
      reads this
    {
      Text(lines, cursorX)
    }

    /** Text, cursor and window fit together. */
    ghost predicate Placed()
      reads this
    {
      && w >= 1 && h >= 1 && TextOk(T(), w)
      && cursorY == |lines| - 1 && screenY == Top(|lines|, h)
    }

    ghost predicate Sized()
      reads this
    {
      && dirtyLine.Length == h && dirtyChar.Length0 == h && dirtyChar.Length1 == w
      && screen.Length0 == h && screen.Length1 == w
    }

    /** A dirty character marks its line, and a dirty line the screen. */
    ghost predicate Marked()
      requires Sized()
      reads this, dirtyLine, dirtyChar
    {
      && (forall y, x :: 0 <= y < h && 0 <= x < w && dirtyChar[y, x] ==> dirtyLine[y])
      && (forall y :: 0 <= y < h && dirtyLine[y] ==> dirtyScreen)
    }

    /** What cell shows at the cursor after it was drawn. */
    function CursorCell(): Cell
      reads this
    {
      if isCursorVisible then Cursor(isFocus) else Glyph(' ')
    }

    /** Every cell that is not marked shows its character, the cursor's cell aside;
        below the text the screen is blank. */
    ghost predicate Shown()
      requires Sized() && Placed()
      reads this, dirtyChar, screen
    {
      forall y, x :: 0 <= y < h && 0 <= x < w ==>
        || screen[y, x] == Wanted(lines, screenY, w, y, x)
        || (screenY + y < |lines| && dirtyChar[y, x])
        || AtCursor(y, x)
    }

    /** Every cell that is not marked shows its character. */
    ghost predicate AllShown()
      requires Sized() && Placed()
      reads this, dirtyChar, screen
    {
      forall y, x :: 0 <= y < h && 0 <= x < w ==>
        screen[y, x] == Wanted(lines, screenY, w, y, x) || (screenY + y < |lines| && dirtyChar[y, x])
    }

    ghost function Seen(): Look
      reads this
    {
      Look(dirtyScreen, drawn, isCursorVisible, isFocus)
    }

    /** The cell (y, x) of the screen is the cursor's. */
    predicate AtCursor(y: int, x: int)
      reads this
    {
      y == cursorY - screenY && x == cursorX
    }

    /** The cursor's cell while nothing is marked. */
    ghost predicate CursorKnown()
      requires Sized() && Placed()
      reads this, screen
    {
      !dirtyScreen ==> screen[cursorY - screenY, cursorX] == if drawn then CursorCell() else Glyph(' ')
    }

    ghost predicate Valid()
      reads this, dirtyLine, dirtyChar, screen
    {
      Sized() && Placed() && Marked() && Shown() && CursorKnown()
    }

    /** Nothing, or everything, is marked. */
    ghost predicate AllFlags(val: bool)
      requires Sized()
      reads this, dirtyLine, dirtyChar
    {
      && dirtyScreen == val
      && (forall y :: 0 <= y < h ==> dirtyLine[y] == val)
      && (forall y, x :: 0 <= y < h && 0 <= x < w ==> dirtyChar[y, x] == val)
    }

    lemma BlankShown()
      requires Sized() && w >= 1 && h >= 1 && T() == Fresh(w) && cursorY == 0 && screenY == 0
      requires forall y, x :: 0 <= y < h && 0 <= x < w ==> screen[y, x] == Glyph(' ')
      ensures Placed() && Shown()
    {
    }

    constructor (w: nat, h: nat)
      requires w >= 1 && h >= 1
      ensures Valid() && this.w == w && this.h == h && T() == Fresh(w)
      ensures AllFlags(false) && drawn && isCursorVisible && !isFocus
      ensures fresh(dirtyLine) && fresh(dirtyChar) && fresh(screen)
    {
      hide Wanted, Blanks, TextOk, Placed, Shown, CursorKnown;
      this.w, this.h := w, h;
      lines, cursorX, cursorY, screenY := [Blanks(w)], 0, 0, 0;
      isCursorVisible, isFocus := true, false;
      screen := new Cell[h, w]((y, x) => Glyph(' '));
      dirtyScreen := false;
      dirtyLine := new bool[h](_ => false);
      dirtyChar := new bool[h, w]((y, x) => false);
      drawn := false;
      new;
      BlankShown();
      DrawCursor();
    }

    twostate predicate SameFlags()
      requires Sized() && old(Sized())
      reads this, dirtyLine, dirtyChar
    {
      && dirtyScreen == old(dirtyScreen)
      && (forall y :: 0 <= y < h ==> dirtyLine[y] == old(dirtyLine[y]))
      && (forall y, x :: 0 <= y < h && 0 <= x < w ==> dirtyChar[y, x] == old(dirtyChar[y, x]))
    }

    method InitDirty(val: bool)
      requires Sized()
      modifies this`dirtyScreen, dirtyLine, dirtyChar
      ensures AllFlags(val)
    {
      dirtyScreen := val;
      forall y | 0 <= y < dirtyLine.Length {
        dirtyLine[y] := val;
      }
      forall y, x | 0 <= y < dirtyChar.Length0 && 0 <= x < dirtyChar.Length1 {
        dirtyChar[y, x] := val;
      }
    }

    method SetDirtyChar(y: nat, x: nat)
      requires Sized() && y < h && x < w
      modifies this`dirtyScreen, dirtyLine, dirtyChar
      ensures dirtyScreen && dirtyLine[y] && dirtyChar[y, x]
      ensures forall y' :: 0 <= y' < h && y' != y ==> dirtyLine[y'] == old(dirtyLine[y'])
      ensures forall y', x' :: 0 <= y' < h && 0 <= x' < w && (y' != y || x' != x) ==>
                                 dirtyChar[y', x'] == old(dirtyChar[y', x'])
    {
      dirtyChar[y, x] := true;
      dirtyLine[y] := true;
      dirtyScreen := true;
    }

    /** The cursor texture, or a blank where it is invisible, goes over the cursor's cell. */
    method DrawCursor()
      requires Sized() && Placed() && Marked() && Shown()
      modifies this`drawn, screen
      ensures Valid() && drawn
      ensures forall y, x :: 0 <= y < h && 0 <= x < w ==>
                               screen[y, x] == if AtCursor(y, x) then CursorCell() else old(screen[y, x])
    {
      drawn := true;
      if screenY <= cursorY < screenY + h {
        screen[cursorY - screenY, cursorX] := if isCursorVisible then Cursor(isFocus) else Glyph(' ');
      }
    }

    method SetCursorVisibility(v: bool)
      requires Valid()
      modifies this`isCursorVisible, this`drawn, screen
      ensures Valid() && isCursorVisible == v && drawn == (old(drawn) || old(isCursorVisible) != v)
      ensures forall y, x :: 0 <= y < h && 0 <= x < w ==>
                screen[y, x] == if old(isCursorVisible) != v && AtCursor(y, x) then CursorCell() else old(screen[y, x])
    {
      var update := isCursorVisible != v;
      isCursorVisible := v;
      if update {
        DrawCursor();
      }
    }

    method SetFocus(v: bool)
      requires Valid()
      modifies this`isFocus, this`drawn, screen
      ensures Valid() && isFocus == v && drawn == (old(drawn) || old(isFocus) != v)
      ensures forall y, x :: 0 <= y < h && 0 <= x < w ==>
                screen[y, x] == if old(isFocus) != v && AtCursor(y, x) then CursorCell() else old(screen[y, x])
    {
      var update := isFocus != v;
      isFocus := v;
      if update {
        DrawCursor();
      }
    }

    /** Back to one blank line. The region is filled, so nothing is dirty. */
    method Clear()
      requires Valid()
      modifies this`lines, this`cursorX, this`cursorY, this`screenY, this`dirtyScreen, this`drawn, dirtyLine,
          dirtyChar, screen
      ensures Valid() && T() == Fresh(w) && AllFlags(false) && !drawn
      ensures forall y, x :: 0 <= y < h && 0 <= x < w ==> screen[y, x] == Glyph(' ')
    {
      while |lines| > 1
        invariant lines != [] && lines[0] == old(lines)[0]
        modifies this`lines
        decreases |lines|
      {
        lines := lines[..|lines| - 1];
      }
      lines := lines[0 := Blanks(w)];
      cursorX, cursorY, screenY := 0, 0, 0;
      forall y, x | 0 <= y < screen.Length0 && 0 <= x < screen.Length1 {
        screen[y, x] := Glyph(' ');
      }
      InitDirty(false);
      drawn := false;
      assert lines == [Blanks(w)];
    }

    /** To the start of the next line, scrolling when the cursor leaves the window. */
    method Newline()
      requires Sized() && Placed() && Marked() && dirtyScreen && AllShown()
      modifies this`lines, this`cursorX, this`cursorY, this`screenY, this`dirtyScreen, dirtyLine, dirtyChar
      ensures Valid() && T() == NewLine(old(T()), w) && dirtyScreen
      ensures |old(lines)| >= h ==> AllFlags(true)
      ensures |old(lines)| < h ==> SameFlags()
    {
      cursorX := 0;
      cursorY := cursorY + 1;
      if cursorY >= |lines| {
        lines := lines + [Blanks(w)];
      }
      if cursorY == screenY + h {
        screenY := screenY + 1;
        InitDirty(true);
      }
    }

    /** backspace(false). */
    method Backspace()
      requires Valid()
      modifies this`lines, this`cursorX, this`dirtyScreen, dirtyLine, dirtyChar
      ensures Valid() && T() == Feed(old(T()), w, BACKSPACE)
      ensures old(cursorX) == 0 ==> SameFlags()
      ensures old(cursorX) > 0 ==> dirtyScreen && dirtyLine[cursorY - screenY]
      ensures old(cursorX) > 0 ==> forall y, x :: 0 <= y < h && 0 <= x < w ==>
                dirtyChar[y, x] == (old(dirtyChar[y, x]) || (y == cursorY - screenY && x in {cursorX, old(cursorX)}))
    {
      if cursorX == 0 {
        return;
      }
      SetDirtyChar(cursorY - screenY, cursorX);
      BlankBefore();
    }

    /** The cursor goes back to a cell that becomes blank. */
    method BlankBefore()
      requires Sized() && Placed() && Marked() && dirtyScreen && AllShown() && cursorX > 0
      modifies this`lines, this`cursorX, this`dirtyScreen, dirtyLine, dirtyChar
      ensures Valid() && T() == Feed(old(T()), w, BACKSPACE) && cursorX == old(cursorX) - 1
      ensures dirtyScreen && dirtyLine[cursorY - screenY]
      ensures forall y, x :: 0 <= y < h && 0 <= x < w ==>
                dirtyChar[y, x] == (old(dirtyChar[y, x]) || (y == cursorY - screenY && x == cursorX))
    {
      cursorX := cursorX - 1;
      lines := lines[cursorY := lines[cursorY][cursorX := ' ']];
      SetDirtyChar(cursorY - screenY, cursorX);
    }

    /** feed_ch; its assertion that ch is a 7-bit character holds if and only if ok. */
    method FeedCh(ch: char) returns (ok: bool)
      requires Valid()
      modifies this`lines, this`cursorX, this`cursorY, this`screenY, this`dirtyScreen, dirtyLine, dirtyChar
      ensures Valid() && (ok <==> ch < 128 as char)
      ensures ok ==> T() == Feed(old(T()), w, ch)
      ensures ok ==> dirtyScreen && dirtyChar[old(cursorY - screenY), old(cursorX)]
      ensures !ok ==> T() == old(T()) && SameFlags()
    {
      if !(ch < 128 as char) {
        return false;
      }
      ok := true;
      if screenY <= cursorY < screenY + h {
        SetDirtyChar(cursorY - screenY, cursorX);
      }
      if ch == '\n' {
        Newline();
      } else if ch == '\r' {
        cursorX := 0;
      } else if ch == BACKSPACE {
        Backspace();
      } else {
        Put(ch);
      }
    }

    /** The last branch of feed_ch: a visible character, which may wrap. */
    method Put(ch: char)
      requires Valid() && Printable(ch) && dirtyScreen && dirtyChar[cursorY - screenY, cursorX]
      modifies this`lines, this`cursorX, this`cursorY, this`screenY, this`dirtyScreen, dirtyLine, dirtyChar
      ensures Valid() && T() == Feed(old(T()), w, ch)
      ensures dirtyScreen && dirtyChar[old(cursorY - screenY), old(cursorX)]
    {
      PutHere(ch);
      if cursorX + 1 == w {
        Newline();
      } else {
        cursorX := cursorX + 1;
      }
    }

    method PutHere(ch: char)
      requires Valid() && dirtyScreen && dirtyChar[cursorY - screenY, cursorX]
      modifies this`lines
      ensures Sized() && Placed() && Marked() && AllShown() && T() == Written(old(T()), w, cursorX, ch)
    {
      lines := lines[cursorY := lines[cursorY][cursorX := ch]];
    }

    /** feed_str: n characters are taken, all of them unless the assertion fails at one. */
    method FeedStr(s: string) returns (n: nat)
      requires Valid()
      modifies this`lines, this`cursorX, this`cursorY, this`screenY, this`dirtyScreen, dirtyLine, dirtyChar
      ensures n <= |s| && (forall i :: 0 <= i < n ==> s[i] < 128 as char) && (n < |s| ==> s[n] >= 128 as char)
      ensures Valid() && T() == FeedAll(old(T()), w, s[..n]) && dirtyScreen == (old(dirtyScreen) || n > 0)
    {
      hide Feed, Wanted, Written, NewLine;
      n := 0;
      while n < |s|
        invariant n <= |s| && Valid() && T() == FeedAll(old(T()), w, s[..n])
        invariant dirtyScreen == (old(dirtyScreen) || n > 0)
        invariant forall i :: 0 <= i < n ==> s[i] < 128 as char
      {
        var ok := FeedCh(s[n]);
        if !ok {
          return n;
        }
        FeedNext(old(T()), w, s, n);
        n := n + 1;
      }
      assert n == |s|;
    }

    /** Repaints the marked cells, then the cursor. Afterwards the screen shows the
        window onto the text, whatever happened before. */
    method UpdateGui()
      requires Valid()
      modifies this`dirtyScreen, this`drawn, dirtyLine, dirtyChar, screen
      ensures Valid() && AllFlags(false) && drawn == (old(dirtyScreen) || old(drawn))
      ensures forall y, x :: 0 <= y < h && 0 <= x < w && !AtCursor(y, x) ==>
                               screen[y, x] == Wanted(lines, screenY, w, y, x)
      ensures screen[cursorY - screenY, cursorX] == if drawn then CursorCell() else Glyph(' ')
      ensures !old(dirtyScreen) ==> forall y, x :: 0 <= y < h && 0 <= x < w ==> screen[y, x] == old(screen[y, x])
    {
      if !dirtyScreen {
        return;
      }
      PaintLines();
      DrawCursor();
      InitDirty(false);
    }

    method PaintLines()
      requires Valid() && dirtyScreen
      modifies screen
      ensures Valid()
      ensures forall y, x :: 0 <= y < h && 0 <= x < w ==>
                screen[y, x] == Wanted(lines, screenY, w, y, x) || AtCursor(y, x)
    {
      var y := 0;
      while y < h && screenY + y < |lines|
        invariant 0 <= y <= h && screenY + y <= |lines| && Valid()
        invariant forall y', x :: 0 <= y' < y && 0 <= x < w ==>
                    screen[y', x] == Wanted(lines, screenY, w, y', x) || AtCursor(y', x)
        modifies screen
      {
        if dirtyLine[y] {
          PaintLine(y);
        }
        y := y + 1;
      }
    }

    method PaintLine(y: nat)
      requires Valid() && dirtyScreen && y < h && screenY + y < |lines|
      modifies screen
      ensures Valid()
      ensures forall x :: 0 <= x < w ==>
                    screen[y, x] == Wanted(lines, screenY, w, y, x) || AtCursor(y, x)
      ensures forall y', x :: 0 <= y' < h && 0 <= x < w && y' != y ==> screen[y', x] == old(screen[y', x])
    {
      var x := 0;
      while x < w
        invariant 0 <= x <= w && Valid()
        invariant forall x' :: 0 <= x' < x ==>
                    screen[y, x'] == Wanted(lines, screenY, w, y, x') || AtCursor(y, x')
        invariant forall y', x' :: 0 <= y' < h && 0 <= x' < w && y' != y ==> screen[y', x'] == old(screen[y', x'])
        modifies screen
      {
        if dirtyChar[y, x] {
          screen[y, x] := Glyph(lines[screenY + y][x]);
        }
        x := x + 1;
      }
    }
  }

  // ----- runs

  datatype Op = FeedOp(ch: char) | ClearOp | FocusOp(v: bool) | VisibleOp(v: bool) | UpdateOp

  function TextStep(t: Text, w: nat, op: Op): (t': Text)
    requires TextOk(t, w)
    ensures TextOk(t', w)
  {
    match op
    case FeedOp(ch) => Feed(t, w, ch)
    case ClearOp => Fresh(w)
    case _ => t
  }

  /** The text after a run: what was typed since the last clear. */
  function TextAfter(w: nat, ops: seq<Op>): (t: Text)
    requires w > 0
    ensures TextOk(t, w)
  {
    if ops == [] then Fresh(w) else TextStep(TextAfter(w, ops[..|ops| - 1]), w, ops[|ops| - 1])
  }

  /** What decides about the cursor's cell. */
  datatype Look = Look(dirty: bool, drawn: bool, visible: bool, focus: bool)

  function LookStep(l: Look, op: Op): Look {
    match op
    case FeedOp(_) => l.(dirty := true)
    case ClearOp => l.(dirty := false, drawn := false)
    case FocusOp(v) => l.(drawn := l.drawn || l.focus != v, focus := v)
    case VisibleOp(v) => l.(drawn := l.drawn || l.visible != v, visible := v)
    case UpdateOp => if l.dirty then l.(dirty := false, drawn := true) else l
  }

  function LookAfter(ops: seq<Op>): Look {
    if ops == [] then Look(false, true, true, false) else LookStep(LookAfter(ops[..|ops| - 1]), ops[|ops| - 1])
  }

  /** The cursor's cell after an update. */
  function CursorAfter(l: Look): Cell {
    if (l.dirty || l.drawn) && l.visible then Cursor(l.focus) else Glyph(' ')
  }

  /** Operation j draws nothing, now or at the next update. */
  predicate Idle(ops: seq<Op>, j: nat)
    requires j < |ops|
  {
    match ops[j]
    case FeedOp(_) => false
    case FocusOp(v) => v == LookAfter(ops[..j]).focus
    case VisibleOp(v) => v == LookAfter(ops[..j]).visible
    case _ => true
  }

  /** The last operation that had an effect on the screen was clear number i. */
  ghost predicate IdleSince(ops: seq<Op>, i: nat) {
    i < |ops| && ops[i].ClearOp? && forall j :: i < j < |ops| ==> Idle(ops, j)
  }

  /** The cursor is missing exactly when the terminal was cleared and since then nothing was typed
      and neither focus nor visibility really changed. */
  lemma {:induction false} CursorMissing(ops: seq<Op>)
    ensures !(LookAfter(ops).dirty || LookAfter(ops).drawn) <==> exists i :: IdleSince(ops, i)
  {
    if ops == [] {
    } else {
      var n := |ops| - 1;
      var front := ops[..n];
      CursorMissing(front);
      forall j | 0 <= j < n ensures Idle(front, j) == Idle(ops, j) {
        assert front[..j] == ops[..j];
      }
      if ops[n].ClearOp? {
        assert IdleSince(ops, n);
      } else {
        var l, l' := LookAfter(front), LookAfter(ops);
        assert l'.dirty || l'.drawn <==> l.dirty || l.drawn || !Idle(ops, n);
        forall i | IdleSince(front, i) && Idle(ops, n) ensures IdleSince(ops, i) {
        }
        forall i | IdleSince(ops, i) ensures IdleSince(front, i) && Idle(ops, n) {
        }
      }
    }
  }

  /** The last operation that set the visibility set it to v, which is true if none did. */
  ghost predicate VisibleLast(ops: seq<Op>, v: bool) {
    || (v && forall j :: 0 <= j < |ops| ==> !ops[j].VisibleOp?)
    || exists i :: 0 <= i < |ops| && ops[i] == VisibleOp(v) && forall j :: i < j < |ops| ==> !ops[j].VisibleOp?
  }

  /** The same of the focus, which a new terminal does not have. */
  ghost predicate FocusLast(ops: seq<Op>, v: bool) {
    || (!v && forall j :: 0 <= j < |ops| ==> !ops[j].FocusOp?)
    || exists i :: 0 <= i < |ops| && ops[i] == FocusOp(v) && forall j :: i < j < |ops| ==> !ops[j].FocusOp?
  }

  lemma {:induction false} VisibleIsLast(ops: seq<Op>, v: bool)
    requires VisibleLast(ops, v)
    ensures LookAfter(ops).visible == v
  {
    if ops != [] && !ops[|ops| - 1].VisibleOp? {
      var front := ops[..|ops| - 1];
      if i :| 0 <= i < |ops| && ops[i] == VisibleOp(v) && forall j :: i < j < |ops| ==> !ops[j].VisibleOp? {
        assert front[i] == VisibleOp(v);
      }
      VisibleIsLast(front, v);
    }
  }

  lemma {:induction false} FocusIsLast(ops: seq<Op>, v: bool)
    requires FocusLast(ops, v)
    ensures LookAfter(ops).focus == v
  {
    if ops != [] && !ops[|ops| - 1].FocusOp? {
      var front := ops[..|ops| - 1];
      if i :| 0 <= i < |ops| && ops[i] == FocusOp(v) && forall j :: i < j < |ops| ==> !ops[j].FocusOp? {
        assert front[i] == FocusOp(v);
      }
      FocusIsLast(front, v);
    }
  }

  /** The cursor's cell after an update shows the cursor, with the focus as last set, unless it was made invisible
      or nothing has happened since a clear. */
  lemma CursorShows(ops: seq<Op>, visible: bool, focus: bool)
    requires VisibleLast(ops, visible) && FocusLast(ops, focus)
    ensures CursorAfter(LookAfter(ops))
            == if visible && !exists i :: IdleSince(ops, i) then Cursor(focus) else Glyph(' ')
  {
    hide VisibleLast, FocusLast, IdleSince, LookAfter;
    VisibleIsLast(ops, visible);
    FocusIsLast(ops, focus);
    CursorMissing(ops);
  }

  /** Clear alone loses the cursor for good; a change of focus brings it back. */
  lemma ClearLosesCursor(n: nat)
    ensures CursorAfter(LookAfter([ClearOp] + seq(n, _ => UpdateOp))) == Glyph(' ')
    ensures CursorAfter(LookAfter([ClearOp, FocusOp(true)])) == Cursor(true)
  {
    var ops := [ClearOp] + seq(n, _ => UpdateOp);
    assert IdleSince(ops, 0);
    CursorMissing(ops);
    var two := [ClearOp, FocusOp(true)];
    assert two[..1] == [ClearOp] && two[..1][..0] == [];
    assert LookAfter(two[..1]) == Look(false, false, true, false);
  }

  method Do(term: Term, op: Op)
    requires term.Valid() && (op.FeedOp? ==> op.ch < 128 as char)
    modifies term, term.dirtyLine, term.dirtyChar, term.screen
    ensures term.Valid() && term.T() == TextStep(old(term.T()), term.w, op)
    ensures term.Seen() == LookStep(old(term.Seen()), op)
  {
    hide Feed;
    match op {
      case FeedOp(ch) => var _ := term.FeedCh(ch);
      case ClearOp => term.Clear();
      case FocusOp(v) => term.SetFocus(v);
      case VisibleOp(v) => term.SetCursorVisibility(v);
      case UpdateOp => term.UpdateGui();
    }
  }

  /** Any run from a new terminal, and one update: the screen is the window onto the text, and the
      cursor's cell is what the run says. */
  method Run(w: nat, h: nat, ops: seq<Op>) returns (term: Term)
    requires w > 0 && h > 0
    requires forall i :: 0 <= i < |ops| && ops[i].FeedOp? ==> ops[i].ch < 128 as char
    ensures fresh(term) && term.Valid() && term.w == w && term.h == h && term.T() == TextAfter(w, ops)
    ensures forall y, x :: 0 <= y < h && 0 <= x < w && !term.AtCursor(y, x) ==>
                             term.screen[y, x]
                             == Wanted(TextAfter(w, ops).lines, Top(|TextAfter(w, ops).lines|, h), w, y, x)
    ensures term.screen[term.cursorY - term.screenY, term.cursorX] == CursorAfter(LookAfter(ops))
  {
    hide TextStep, LookStep, Term.Shown, Term.Marked;
    term := new Term(w, h);
    var i := 0;
    while i < |ops|
      invariant 0 <= i <= |ops|
      invariant term.Valid() && term.w == w && term.h == h && term.T() == TextAfter(w, ops[..i])
      invariant term.Seen() == LookAfter(ops[..i])
      invariant fresh(term) && fresh(term.dirtyLine) && fresh(term.dirtyChar) && fresh(term.screen)
    {
      assert ops[..i + 1][..i] == ops[..i];
      Do(term, ops[i]);
      i := i + 1;
    }
    assert ops[..i] == ops;
    term.UpdateGui();
  }
}
