/**
 The line editor's meaning: the edited line with its history, what each event echoes, and the one-line terminal that
 shows what was echoed.
 */
module LineEditor {

  // ---------------------------------------------------------------- the terminal

  /** The cells from where the line starts, blank beyond the last one written, and the cursor's column. */
  datatype Term = Term(cells: seq<char>, col: int)

  const NUL: char := '\0'
  const BACK: char := '\U{0008}'

  predicate Control(c: char) { c == '\n' || c == '\t' || c == '\r' || c == BACK }

  /** A character that takes one cell and is seen there. */
  predicate Printable(c: char) { !Control(c) && c != NUL }

  predicate TermOk(t: Term) { 0 <= t.col <= |t.cells| }

  function SetCell(t: Term, c: char): (r: Term)
    requires TermOk(t)
    ensures TermOk(r)
  {
    Term(if t.col < |t.cells| then t.cells[t.col := c] else t.cells + [c], t.col + 1)
  }

  function Spaces(t: Term, n: nat): (r: Term)
    requires TermOk(t)
    ensures TermOk(r) && r.col == t.col + n && |t.cells| <= |r.cells|
    ensures forall i :: t.col <= i < r.col ==> r.cells[i] == ' '
    decreases n
  {
    if n == 0 then t else
      var r := Spaces(t, n - 1);
      SetCell(r, ' ')
  }

  /** What the text-mode driver does with a character. */
  function Echo(t: Term, c: char): (r: Term)
    requires TermOk(t)
    ensures TermOk(r)
  {
    if c == '\n' then Term([], 0)
    else if c == '\t' then Spaces(t, 4 - t.col % 4)
    else if c == '\r' then t.(col := 0)
    else if c == BACK then t.(col := if t.col > 0 then t.col - 1 else 0)
    else SetCell(t, c)
  }

  function EchoAll(t: Term, s: string): (r: Term)
    requires TermOk(t)
    ensures TermOk(r)
    decreases |s|
  {
    if s == "" then t else EchoAll(Echo(t, s[0]), s[1..])
  }

  /** No backspace is echoed where the line starts, which would leave it. */
  predicate Stays(t: Term, s: string)
    requires TermOk(t)
    decreases |s|
  {
    s == "" || ((s[0] == BACK ==> t.col > 0) && Stays(Echo(t, s[0]), s[1..]))
  }

  predicate Blank(c: char) { c == ' ' || c == NUL }

  /** The terminal shows the line followed by blanks, with the cursor at its place. */
  ghost predicate Shows(t: Term, text: string, cursor: int) {
    && t.col == cursor && 0 <= cursor <= |text| <= |t.cells|
    && (forall i :: 0 <= i < |text| ==> t.cells[i] == text[i])
    && (forall i :: |text| <= i < |t.cells| ==> Blank(t.cells[i]))
  }

  /** Nothing but characters that take one cell each. */
  predicate Plain(s: string) { forall i :: 0 <= i < |s| ==> !Control(s[i]) }

  /** The terminal after characters that each take a cell. */
  function Over(t: Term, s: string): (r: Term)
    requires TermOk(t)
    ensures r.col == t.col + |s| <= |r.cells|
    ensures |r.cells| == if t.col + |s| <= |t.cells| then |t.cells| else t.col + |s|
    ensures forall i :: 0 <= i < |r.cells| ==>
        r.cells[i] == if t.col <= i < t.col + |s| then s[i - t.col] else t.cells[i]
  {
    Term(t.cells[..t.col] + s + (if t.col + |s| <= |t.cells| then t.cells[t.col + |s|..] else []), t.col + |s|)
  }

  function Backs(n: nat): (s: string)
    ensures |s| == n && forall i :: 0 <= i < n ==> s[i] == BACK
  {
    seq(n, _ => BACK)
  }

  /** A tab fills with blanks up to the next multiple of four; the other controls only move the cursor. */
  lemma EchoControls(t: Term)
    requires TermOk(t)
    ensures var r := Echo(t, '\t');
      && r.col % 4 == 0 && t.col < r.col <= t.col + 4 && (forall i :: t.col <= i < r.col ==> r.cells[i] == ' ')
    ensures Echo(t, '\r') == t.(col := 0) && Echo(t, '\n') == Term([], 0)
    ensures t.col > 0 ==> Echo(t, BACK) == t.(col := t.col - 1)
    ensures t.col == 0 ==> Echo(t, BACK) == t
  {
  }

  lemma {:induction false} EchoConcat(t: Term, a: string, b: string)
    requires TermOk(t)
    ensures EchoAll(t, a + b) == EchoAll(EchoAll(t, a), b)
    ensures Stays(t, a + b) <==> Stays(t, a) && Stays(EchoAll(t, a), b)
    decreases |a|
  {
    if a == "" {
      assert a + b == b;
    } else {
      assert (a + b)[0] == a[0] && (a + b)[1..] == a[1..] + b;
      EchoConcat(Echo(t, a[0]), a[1..], b);
    }
  }

  lemma {:induction false} EchoPlain(t: Term, s: string)
    requires TermOk(t) && Plain(s)
    ensures EchoAll(t, s) == Over(t, s) && Stays(t, s)
    decreases |s|
  {
    if s == "" {
      assert Over(t, s).cells == t.cells;
    } else {
      assert !Control(s[0]);
      EchoPlain(Echo(t, s[0]), s[1..]);
      OverFirst(t, s[0], s[1..]);
      assert [s[0]] + s[1..] == s;
    }
  }

  lemma OverFirst(t: Term, c: char, s: string)
    requires TermOk(t)
    ensures Over(SetCell(t, c), s) == Over(t, [c] + s)
  {
    assert Over(SetCell(t, c), s).cells == Over(t, [c] + s).cells;
  }

  lemma {:induction false} EchoBacks(t: Term, n: nat)
    requires TermOk(t)
    ensures EchoAll(t, Backs(n)) == t.(col := if n <= t.col then t.col - n else 0)
    ensures Stays(t, Backs(n)) <==> n <= t.col
    decreases n
  {
    if n > 0 {
      assert Backs(n)[1..] == Backs(n - 1);
      EchoBacks(Echo(t, BACK), n - 1);
    }
  }

  /** Characters that take a cell each, then some way back. */
  lemma {:induction false} EchoThenBack(t: Term, s: string, n: nat)
    requires TermOk(t) && Plain(s) && n <= t.col + |s|
    ensures EchoAll(t, s + Backs(n)) == Over(t, s).(col := t.col + |s| - n) && Stays(t, s + Backs(n))
  {
    EchoConcat(t, s, Backs(n));
    EchoPlain(t, s);
    EchoBacks(Over(t, s), n);
  }

  // ---------------------------------------------------------------- the edited line

  /**
   The line, the cursor, the committed lines (newest first), the one selected from them (or -1), and what was sent
   to the program.
   */
  datatype Line = Line(text: string, cursor: int, log: seq<string>, selected: int, sent: string)

  predicate NoNul(s: string) { forall i :: 0 <= i < |s| ==> s[i] != NUL }

  ghost predicate LineOk(l: Line) {
    && 0 <= l.cursor <= |l.text| && -1 <= l.selected < |l.log|
    && NoNul(l.text) && (forall k :: 0 <= k < |l.log| ==> NoNul(l.log[k]))
  }

  /** Every character of the line and its history takes one cell. */
  ghost predicate LinePlain(l: Line) {
    Plain(l.text) && forall k :: 0 <= k < |l.log| ==> Plain(l.log[k])
  }

  function Start(): Line { Line("", 0, [], -1, "") }

  datatype Event = Type(c: char) | Enter | Home | End | Left | Right | Backspace | Delete | Up | Down

  /** A key never types a terminator. */
  predicate EventOk(e: Event) { e.Type? ==> e.c != NUL }

  predicate EventPlain(e: Event) { e.Type? ==> Printable(e.c) }

  function Insert(l: Line, c: char): Line
    requires 0 <= l.cursor <= |l.text|
  {
    l.(text := l.text[..l.cursor] + [c] + l.text[l.cursor..], cursor := l.cursor + 1)
  }

  function EraseLeft(l: Line): Line
    requires 0 <= l.cursor <= |l.text|
  {
    if l.cursor == 0 then l
    else l.(text := l.text[..l.cursor - 1] + l.text[l.cursor..], cursor := l.cursor - 1)
  }

  function EraseRight(l: Line): Line
    requires 0 <= l.cursor <= |l.text|
  {
    if l.cursor == |l.text| then l else l.(text := l.text[..l.cursor] + l.text[l.cursor + 1..])
  }

  function Commit(l: Line): Line {
    Line("", 0, [l.text] + l.log, -1, l.sent + l.text + "\n")
  }

  /** Shows a history entry in place of the line, or an empty line for none. */
  function Select(l: Line, k: int): Line {
    if 0 <= k < |l.log| then l.(selected := k, text := l.log[k], cursor := |l.log[k]|)
    else l.(selected := -1, text := "", cursor := 0)
  }

  /** The entry that an arrow key selects. */
  function Target(l: Line, e: Event): int {
    if l.selected == -1 then 0 else if e.Up? then l.selected + 1 else l.selected - 1
  }

  function Apply(l: Line, e: Event): Line
    requires 0 <= l.cursor <= |l.text|
  {
    match e
    case Type(c) => Insert(l, c)
    case Enter => Commit(l)
    case Home => l.(cursor := 0)
    case End => l.(cursor := |l.text|)
    case Left => if l.cursor > 0 then l.(cursor := l.cursor - 1) else l
    case Right => if l.cursor < |l.text| then l.(cursor := l.cursor + 1) else l
    case Backspace => EraseLeft(l)
    case Delete => EraseRight(l)
    case Up => Select(l, Target(l, e))
    case Down => Select(l, Target(l, e))
  }

  lemma ApplyOk(l: Line, e: Event)
    requires LineOk(l) && EventOk(e)
    ensures LineOk(Apply(l, e))
  {
  }

  lemma ApplyPlain(l: Line, e: Event)
    requires LineOk(l) && LinePlain(l) && EventPlain(e)
    ensures LinePlain(Apply(l, e))
  {
  }

  // ---------------------------------------------------------------- what is echoed

  /** One character wiped: back, blank, back. */
  function Wipes(n: nat): string
    decreases n
  {
    if n == 0 then "" else [BACK, ' ', BACK] + Wipes(n - 1)
  }

  /** What an event echoes, given the line it finds. */
  function Output(l: Line, e: Event): string
    requires 0 <= l.cursor <= |l.text|
  {
    var rest := l.text[l.cursor..];
    match e
    case Type(c) => [c] + rest + Backs(|rest|)
    case Enter => "\n"
    case Home => Backs(l.cursor)
    case End => rest
    case Left => if l.cursor > 0 then Backs(1) else ""
    case Right => if rest != "" then [rest[0]] else ""
    case Backspace => if l.cursor > 0 then [BACK] + (rest + [NUL] + Backs(|rest| + 1)) else ""
    case Delete => if rest != "" then rest[1..] + [NUL, ' '] + Backs(|rest| + 1) else ""
    case Up => rest + Wipes(|l.text|) + Select(l, Target(l, e)).text
    case Down => rest + Wipes(|l.text|) + Select(l, Target(l, e)).text
  }

  // ---------------------------------------------------------------- what is echoed shows the line

  ghost predicate ShowsLine(t: Term, l: Line) { Shows(t, l.text, l.cursor) }

  /** Echoing the event's output keeps the terminal showing the line, and never leaves it. */
  ghost predicate KeepsShowing(t: Term, l: Line, e: Event)
    requires TermOk(t) && LineOk(l)
  {
    Stays(t, Output(l, e)) && ShowsLine(EchoAll(t, Output(l, e)), Apply(l, e))
  }

  lemma InsertShows(t: Term, l: Line, c: char)
    requires LineOk(l) && ShowsLine(t, l)
    ensures ShowsLine(Over(t, [c] + l.text[l.cursor..]).(col := l.cursor + 1), Insert(l, c))
  {
    var s := [c] + l.text[l.cursor..];
    var t', text := Over(t, s), Insert(l, c).text;
    assert |text| == |l.text| + 1;
  }

  lemma EraseLeftShows(t: Term, l: Line)
    requires LineOk(l) && ShowsLine(t, l) && l.cursor > 0
    ensures ShowsLine(Over(t.(col := l.cursor - 1), l.text[l.cursor..] + [NUL]).(col := l.cursor - 1), EraseLeft(l))
  {
    var s := l.text[l.cursor..] + [NUL];
    var t', text := Over(t.(col := l.cursor - 1), s), EraseLeft(l).text;
    assert |text| == |l.text| - 1;
  }

  lemma EraseRightShows(t: Term, l: Line)
    requires LineOk(l) && ShowsLine(t, l) && l.cursor < |l.text|
    ensures ShowsLine(Over(t, l.text[l.cursor + 1..] + [NUL, ' ']).(col := l.cursor), EraseRight(l))
  {
    var s := l.text[l.cursor + 1..] + [NUL, ' '];
    var t', text := Over(t, s), EraseRight(l).text;
    assert |text| == |l.text| - 1 && |s| == |l.text| - l.cursor + 1;
    forall i | 0 <= i < |text| ensures t'.cells[i] == text[i] {
      assert i >= l.cursor ==> s[i - l.cursor] == l.text[i + 1];
    }
  }

  lemma MoveShows(t: Term, text: string, i: int, j: int)
    requires Shows(t, text, i) && i <= j <= |text|
    ensures Shows(Over(t, text[i..j]), text, j)
  {
  }

  lemma TypeKeeps(t: Term, l: Line, c: char)
    requires LineOk(l) && LinePlain(l) && ShowsLine(t, l) && Printable(c)
    ensures KeepsShowing(t, l, Type(c))
  {
    var rest := l.text[l.cursor..];
    EchoThenBack(t, [c] + rest, |rest|);
    InsertShows(t, l, c);
  }

  lemma BackspaceKeeps(t: Term, l: Line)
    requires LineOk(l) && LinePlain(l) && ShowsLine(t, l)
    ensures KeepsShowing(t, l, Backspace)
  {
    if l.cursor > 0 {
      var s := l.text[l.cursor..] + [NUL];
      EchoConcat(t, [BACK], s + Backs(|s|));
      assert EchoAll(t, [BACK]) == t.(col := l.cursor - 1) && Stays(t, [BACK]);
      EchoThenBack(t.(col := l.cursor - 1), s, |s|);
      EraseLeftShows(t, l);
    }
  }

  lemma DeleteKeeps(t: Term, l: Line)
    requires LineOk(l) && LinePlain(l) && ShowsLine(t, l)
    ensures KeepsShowing(t, l, Delete)
  {
    var rest := l.text[l.cursor..];
    if rest != "" {
      var s := rest[1..] + [NUL, ' '];
      assert rest[1..] == l.text[l.cursor + 1..];
      EchoThenBack(t, s, |rest| + 1);
      EraseRightShows(t, l);
    }
  }

  lemma MoveKeeps(t: Term, l: Line, e: Event)
    requires LineOk(l) && LinePlain(l) && ShowsLine(t, l) && (e.Home? || e.End? || e.Left? || e.Right?)
    ensures KeepsShowing(t, l, e)
  {
    var rest := l.text[l.cursor..];
    match e {
      case Home => EchoBacks(t, l.cursor);
      case Left => if l.cursor > 0 { EchoBacks(t, 1); }
      case Right =>
        if rest != "" {
          assert [rest[0]] == l.text[l.cursor..l.cursor + 1];
          EchoPlain(t, [rest[0]]);
          MoveShows(t, l.text, l.cursor, l.cursor + 1);
        }
      case End =>
        assert rest == l.text[l.cursor..|l.text|];
        EchoPlain(t, rest);
        MoveShows(t, l.text, l.cursor, |l.text|);
    }
  }

  ghost predicate BlankFrom(t: Term, n: int) {
    0 <= n && TermOk(t) && forall i :: n <= i < |t.cells| ==> Blank(t.cells[i])
  }

  lemma {:induction false} WipesBlank(t: Term, n: nat)
    requires t.col == n && BlankFrom(t, n)
    ensures Stays(t, Wipes(n)) && EchoAll(t, Wipes(n)).col == 0 && BlankFrom(EchoAll(t, Wipes(n)), 0)
    decreases n
  {
    if n > 0 {
      WipeOne(t, n);
      EchoConcat(t, [BACK, ' ', BACK], Wipes(n - 1));
      WipesBlank(EchoAll(t, [BACK, ' ', BACK]), n - 1);
    }
  }

  lemma {:induction false} WipeOne(t: Term, n: nat)
    requires 0 < n == t.col && BlankFrom(t, n)
    ensures var r := EchoAll(t, [BACK, ' ', BACK]); r.col == n - 1 && BlankFrom(r, n - 1) && Stays(t, [BACK, ' ', BACK])
  {
    var a := Echo(t, BACK);
    var b := Echo(a, ' ');
    assert [BACK, ' ', BACK][1..] == [' ', BACK] && [' ', BACK][1..] == [BACK] && [BACK][1..] == "";
    assert EchoAll(b, [BACK]) == Echo(b, BACK);
    assert EchoAll(a, [' ', BACK]) == Echo(b, BACK) && Stays(a, [' ', BACK]);
  }

  lemma {:induction false} EchoThree(t: Term, a: string, b: string, c: string)
    requires TermOk(t)
    ensures EchoAll(t, a + b + c) == EchoAll(EchoAll(EchoAll(t, a), b), c)
    ensures Stays(t, a + b + c) <==> Stays(t, a) && Stays(EchoAll(t, a), b) && Stays(EchoAll(EchoAll(t, a), b), c)
  {
    EchoConcat(t, a + b, c);
    EchoConcat(t, a, b);
  }

  /** To the end of the line, then back over all of it: an empty line. */
  lemma {:induction false} WipedLine(t: Term, l: Line)
    requires LineOk(l) && LinePlain(l) && ShowsLine(t, l)
    ensures var rest := l.text[l.cursor..]; Stays(t, rest) && Stays(EchoAll(t, rest), Wipes(|l.text|))
    ensures var r := EchoAll(EchoAll(t, l.text[l.cursor..]), Wipes(|l.text|)); r.col == 0 && BlankFrom(r, 0)
  {
    var rest := l.text[l.cursor..];
    EchoPlain(t, rest);
    MoveShows(t, l.text, l.cursor, |l.text|);
    assert rest == l.text[l.cursor..|l.text|];
    WipesBlank(Over(t, rest), |l.text|);
  }

  /** On an empty line, an entry is shown as it is. */
  lemma {:induction false} EntryShows(t: Term, s: string)
    requires t.col == 0 && BlankFrom(t, 0) && Plain(s)
    ensures Stays(t, s) && Shows(EchoAll(t, s), s, |s|)
  {
    EchoPlain(t, s);
  }

  lemma SelectKeeps(t: Term, l: Line, e: Event)
    requires LineOk(l) && LinePlain(l) && ShowsLine(t, l) && (e.Up? || e.Down?)
    ensures KeepsShowing(t, l, e)
  {
    var r := Select(l, Target(l, e));
    WipedLine(t, l);
    EntryShows(EchoAll(EchoAll(t, l.text[l.cursor..]), Wipes(|l.text|)), r.text);
    EchoThree(t, l.text[l.cursor..], Wipes(|l.text|), r.text);
  }

  lemma EventKeeps(t: Term, l: Line, e: Event)
    requires LineOk(l) && LinePlain(l) && ShowsLine(t, l) && EventPlain(e)
    ensures KeepsShowing(t, l, e)
  {
    match e {
      case Type(c) => TypeKeeps(t, l, c);
      case Enter => assert "\n"[1..] == "" && EchoAll(t, "\n") == Term([], 0);
      case Backspace => BackspaceKeeps(t, l);
      case Delete => DeleteKeeps(t, l);
      case Up => SelectKeeps(t, l, e);
      case Down => SelectKeeps(t, l, e);
      case _ => MoveKeeps(t, l, e);
    }
  }

  /**
   At any cursor position, typing a character keeps the terminal showing the line exactly if it is printable: a tab is
   seen as blanks, and the others lose the cursor's place.
   */
  lemma TypingShowsIff(t: Term, l: Line, c: char)
    requires LineOk(l) && LinePlain(l) && ShowsLine(t, l) && c != NUL
    ensures KeepsShowing(t, l, Type(c)) <==> Printable(c)
  {
    if Printable(c) {
      TypeKeeps(t, l, c);
    } else {
      var rest := l.text[l.cursor..];
      var t1 := Echo(t, c);
      assert [c][1..] == "" && EchoAll(t, [c]) == t1;
      EchoConcat(t, [c], rest + Backs(|rest|));
      assert [c] + (rest + Backs(|rest|)) == [c] + rest + Backs(|rest|);
      EchoThenBack(t1, rest, |rest|);
      var r := EchoAll(t, Output(l, Type(c)));
      assert r == Over(t1, rest).(col := t1.col);
      if c == '\t' {
        assert r.cells[l.cursor] == ' ' && Insert(l, c).text[l.cursor] == '\t';
      }
    }
  }

  // ---------------------------------------------------------------- every run

  ghost predicate EventsOk(events: seq<Event>) { forall i :: 0 <= i < |events| ==> EventOk(events[i]) }

  ghost function Run(l: Line, events: seq<Event>): (r: Line)
    requires LineOk(l) && EventsOk(events)
    ensures LineOk(r)
    decreases |events|
  {
    if events == [] then l
    else
      ApplyOk(l, events[0]);
      Run(Apply(l, events[0]), events[1..])
  }

  /** The terminal after all that the events echo. */
  ghost function Screen(t: Term, l: Line, events: seq<Event>): (r: Term)
    requires TermOk(t) && LineOk(l) && EventsOk(events)
    ensures TermOk(r)
    decreases |events|
  {
    if events == [] then t
    else
      ApplyOk(l, events[0]);
      Screen(EchoAll(t, Output(l, events[0])), Apply(l, events[0]), events[1..])
  }

  lemma {:induction false} RunShows(t: Term, l: Line, events: seq<Event>)
    requires LineOk(l) && LinePlain(l) && ShowsLine(t, l)
    requires EventsOk(events) && forall i :: 0 <= i < |events| ==> EventPlain(events[i])
    ensures ShowsLine(Screen(t, l, events), Run(l, events))
    decreases |events|
  {
    if events != [] {
      ApplyOk(l, events[0]);
      ApplyPlain(l, events[0]);
      EventKeeps(t, l, events[0]);
      RunShows(EchoAll(t, Output(l, events[0])), Apply(l, events[0]), events[1..]);
    }
  }

  /** For every sequence of key events that type only printable characters, the terminal shows exactly the line. */
  lemma {:induction false} EveryRunShows(events: seq<Event>)
    requires EventsOk(events) && forall i :: 0 <= i < |events| ==> EventPlain(events[i])
    ensures ShowsLine(Screen(Term([], 0), Start(), events), Run(Start(), events))
  {
    RunShows(Term([], 0), Start(), events);
  }

  // ---------------------------------------------------------------- undoing, and the history

  /** Backspace undoes typing, and deleting undoes moving left after typing. */
  lemma BackspaceUndoes(l: Line, c: char)
    requires LineOk(l)
    ensures Apply(Apply(l, Type(c)), Backspace) == l
    ensures Apply(Apply(Apply(l, Type(c)), Left), Delete) == l
  {
    var t := l.text[..l.cursor] + [c] + l.text[l.cursor..];
    assert t[..l.cursor] == l.text[..l.cursor] && t[l.cursor + 1..] == l.text[l.cursor..];
    assert l.text[..l.cursor] + l.text[l.cursor..] == l.text;
  }

  /** The committed lines, oldest first, each ended by a newline. */
  ghost function Lines(log: seq<string>): string {
    if log == [] then "" else Lines(log[1..]) + log[0] + "\n"
  }

  lemma {:induction false} SentKept(l: Line, events: seq<Event>)
    requires LineOk(l) && EventsOk(events) && l.sent == Lines(l.log)
    ensures Run(l, events).sent == Lines(Run(l, events).log)
    decreases |events|
  {
    if events != [] {
      ApplyOk(l, events[0]);
      var l' := Apply(l, events[0]);
      if events[0].Enter? { assert l'.log[1..] == l.log; }
      SentKept(l', events[1..]);
    }
  }

  /**
   In every run, what the program was sent is exactly the history, line by line, and nothing of the line being edited.
   */
  lemma {:induction false} EveryRunSends(events: seq<Event>)
    requires EventsOk(events)
    ensures Run(Start(), events).sent == Lines(Run(Start(), events).log)
  {
    SentKept(Start(), events);
  }

  function Times(e: Event, n: nat): seq<Event> { seq(n, _ => e) }

  /**
   Down goes one entry towards the newest, from the newest to an empty line, and from no selection to the newest,
   with the cursor at the end of what is shown.
   */
  lemma DownWalks(l: Line)
    requires LineOk(l)
    ensures var l' := Apply(l, Down);
      && l'.log == l.log && l'.sent == l.sent && l'.cursor == |l'.text|
      && (l.selected >= 1 ==> l'.text == l.log[l.selected - 1] && l'.selected == l.selected - 1)
      && (l.selected == 0 || l.log == [] ==> l'.text == "" && l'.selected == -1)
      && (l.selected == -1 && l.log != [] ==> l'.text == l.log[0] && l'.selected == 0)
  {
  }

  /** Inside the history Down undoes Up, and Up undoes Down. */
  lemma DownUndoesUp(l: Line)
    requires LineOk(l) && l.selected >= 0 && l.text == l.log[l.selected] && l.cursor == |l.text|
    ensures l.selected + 1 < |l.log| ==> Apply(Apply(l, Up), Down) == l
    ensures l.selected >= 1 ==> Apply(Apply(l, Down), Up) == l
  {
  }

  /** The cursor keys move the cursor, no further than the ends of the line, and nothing else. */
  lemma CursorMoves(l: Line)
    requires LineOk(l)
    ensures Apply(l, Home) == l.(cursor := 0) && Apply(l, End) == l.(cursor := |l.text|)
    ensures l.cursor < |l.text| ==> Apply(Apply(l, Right), Left) == l && Apply(l, Right).cursor == l.cursor + 1
    ensures l.cursor > 0 ==> Apply(Apply(l, Left), Right) == l && Apply(l, Left).cursor == l.cursor - 1
    ensures l.cursor == 0 ==> Apply(l, Left) == l
    ensures l.cursor == |l.text| ==> Apply(l, Right) == l
  {
  }

  /** From no selection, `n` presses of Up bring back the `n`-th newest line, and one press too many an empty one. */
  lemma {:induction false} UpWalks(l: Line, n: nat)
    requires LineOk(l) && l.selected == -1 && n <= |l.log| + 1
    ensures EventsOk(Times(Up, n))
    ensures var r := Run(l, Times(Up, n));
      && r.log == l.log && r.sent == l.sent
      && r.selected == (if n <= |l.log| then n - 1 else -1)
      && (1 <= n <= |l.log| ==> r.text == l.log[n - 1] && r.cursor == |r.text|)
      && (n == |l.log| + 1 ==> r.text == "")
  {
    if n > 0 {
      UpWalks(l, n - 1);
      RunLast(l, Times(Up, n - 1), Up);
      assert Times(Up, n) == Times(Up, n - 1) + [Up];
    }
  }

  /** After `n` presses of Up, `m` presses of Down come back by as many, and past the newest to an empty line. */
  lemma {:induction false} UpDownWalks(l: Line, n: nat, m: nat)
    requires LineOk(l) && l.selected == -1 && 1 <= n <= |l.log| && m <= n
    ensures EventsOk(Times(Up, n) + Times(Down, m))
    ensures var r := Run(l, Times(Up, n) + Times(Down, m));
      && r.log == l.log && r.sent == l.sent && r.selected == n - 1 - m && r.cursor == |r.text|
      && r.text == if m < n then l.log[n - 1 - m] else ""
  {
    UpWalks(l, n);
    if m == 0 {
      assert Times(Up, n) + Times(Down, 0) == Times(Up, n);
    } else {
      UpDownWalks(l, n, m - 1);
      var before := Times(Up, n) + Times(Down, m - 1);
      RunOk(l, before);
      RunLast(l, before, Down);
      DownWalks(Run(l, before));
      assert Times(Up, n) + Times(Down, m) == before + [Down];
    }
  }

  lemma {:induction false} RunOk(l: Line, events: seq<Event>)
    requires LineOk(l) && EventsOk(events)
    ensures LineOk(Run(l, events))
    decreases |events|
  {
    if events != [] {
      ApplyOk(l, events[0]);
      RunOk(Apply(l, events[0]), events[1..]);
    }
  }

  function Typed(s: string): seq<Event> { seq(|s|, i requires 0 <= i < |s| => Type(s[i])) }

  /** Typing a string puts it in front of the cursor, and Enter sends the line as it is then, with a newline. */
  lemma {:induction false} TypedLine(l: Line, s: string)
    requires LineOk(l) && NoNul(s)
    ensures EventsOk(Typed(s)) && EventsOk(Typed(s) + [Enter])
    ensures var text := l.text[..l.cursor] + s + l.text[l.cursor..];
      && Run(l, Typed(s)) == l.(text := text, cursor := l.cursor + |s|)
      && Run(l, Typed(s) + [Enter]) == Line("", 0, [text] + l.log, -1, l.sent + text + "\n")
    decreases |s|
  {
    if s == "" {
      assert l.text[..l.cursor] + s + l.text[l.cursor..] == l.text;
      assert Run(l, Typed(s)) == l;
    } else {
      var l1 := Apply(l, Type(s[0]));
      ApplyOk(l, Type(s[0]));
      TypedLine(l1, s[1..]);
      assert Typed(s)[0] == Type(s[0]) && Typed(s)[1..] == Typed(s[1..]);
      assert l1.text[..l1.cursor] + s[1..] + l1.text[l1.cursor..] == l.text[..l.cursor] + s + l.text[l.cursor..];
    }
    RunLast(l, Typed(s), Enter);
  }

  lemma {:induction false} RunLast(l: Line, events: seq<Event>, e: Event)
    requires LineOk(l) && EventsOk(events) && EventOk(e)
    ensures EventsOk(events + [e]) && Run(l, events + [e]) == Apply(Run(l, events), e)
    decreases |events|
  {
    if events == [] {
      assert (events + [e])[1..] == [];
    } else {
      ApplyOk(l, events[0]);
      assert (events + [e])[1..] == events[1..] + [e];
      RunLast(Apply(l, events[0]), events[1..], e);
    }
  }
}
