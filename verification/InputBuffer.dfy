/**
 The line editor as it works: a terminated character buffer edited in place, and every change echoed.
 */
module InputBuffers {
  import opened LineEditor

  const CHUNK: nat := 32

  /** The buffer holds the text and its terminator. */
  ghost predicate Stored(a: array<char>, text: string)
    reads a
  {
    && |text| < a.Length && a[|text|] == NUL
    && (forall i :: 0 <= i < |text| ==> a[i] == text[i])
    && NoNul(text)
  }

  class InputBuffer {
    var editBuffer: array<char>
    var cursorPos: int
    var log: seq<string>
    var selected: int
    var sent: string
    var term: Term
    ghost var text: string

    ghost function Model(): Line
      reads this
    {
      Line(text, cursorPos, log, selected, sent)
    }

    /** The buffer is terminated in bounds, and every history entry fits in it. */
    ghost predicate Valid()
      reads this, editBuffer
    {
      && LineOk(Model()) && TermOk(term)
      && editBuffer.Length >= 2 && Stored(editBuffer, text)
      && (forall k :: 0 <= k < |log| ==> |log[k]| < editBuffer.Length)
    }

    constructor ()
      ensures Valid() && Model() == Start() && term == Term([], 0) && fresh(editBuffer)
    {
      editBuffer := new char[CHUNK](_ => NUL);
      cursorPos, log, selected, sent, term, text := 0, [], -1, "", Term([], 0), "";
    }

    method StrLen() returns (n: nat)
      requires Stored(editBuffer, text)
      ensures n == |text|
    {
      n := 0;
      while editBuffer[n] != NUL
        invariant n <= |text|
        decreases |text| - n
      {
        n := n + 1;
      }
    }

    method PutChar(c: char)
      requires TermOk(term)
      modifies this`term
      ensures term == Echo(old(term), c) == EchoAll(old(term), [c])
    {
      term := Echo(term, c);
      assert [c][1..] == "";
    }

    /** Echoes part of the buffer. */
    method PutRange(i: int, j: int)
      requires 0 <= i <= j <= editBuffer.Length && TermOk(term)
      modifies this`term
      ensures TermOk(old(term)) && term == EchoAll(old(term), editBuffer[i..j])
    {
      var k := i;
      while k < j
        invariant i <= k <= j && TermOk(term) && term == EchoAll(old(term), editBuffer[i..k])
      {
        EchoConcat(old(term), editBuffer[i..k], [editBuffer[k]]);
        PutChar(editBuffer[k]);
        assert editBuffer[i..k + 1] == editBuffer[i..k] + [editBuffer[k]];
        k := k + 1;
      }
    }

    method PutBack(n: nat)
      requires TermOk(term)
      modifies this`term
      ensures TermOk(old(term)) && term == EchoAll(old(term), Backs(n))
    {
      var k := 0;
      while k < n
        invariant 0 <= k <= n && TermOk(term) && term == EchoAll(old(term), Backs(k))
      {
        EchoConcat(old(term), Backs(k), [BACK]);
        PutChar(BACK);
        assert Backs(k + 1) == Backs(k) + [BACK];
        k := k + 1;
      }
    }

    method Expand()
      requires Stored(editBuffer, text)
      modifies this`editBuffer
      ensures fresh(editBuffer) && editBuffer.Length == 2 * old(editBuffer.Length) && Stored(editBuffer, text)
    {
      var n := StrLen();
      var from := editBuffer;
      var expanded := new char[2 * from.Length](_ => NUL);
      var i := 0;
      while i < n
        invariant 0 <= i <= n
        invariant forall k :: 0 <= k < expanded.Length ==> expanded[k] == if k < i then text[k] else NUL
      {
        expanded[i] := from[i];
        i := i + 1;
      }
      editBuffer := expanded;
    }

    /** Makes room at the cursor, from the terminator down. */
    method ShiftUp(n: int)
      requires Stored(editBuffer, text) && n == |text| && n + 1 < editBuffer.Length && 0 <= cursorPos <= n
      modifies editBuffer
      ensures forall k :: 0 <= k < cursorPos ==> editBuffer[k] == text[k]
      ensures forall k :: cursorPos < k <= n ==> editBuffer[k] == text[k - 1]
      ensures editBuffer[n + 1] == NUL
    {
      ghost var b := editBuffer[..];
      var i := n + 1;
      while i > cursorPos
        invariant cursorPos <= i <= n + 1
        invariant forall k :: 0 <= k <= i && k <= n ==> editBuffer[k] == b[k]
        invariant forall k :: i < k <= n + 1 ==> editBuffer[k] == b[k - 1]
      {
        editBuffer[i] := editBuffer[i - 1];
        i := i - 1;
      }
    }

    /** Any character but the terminator, wherever the cursor is; the buffer grows when needed. */
    method AddChar(c: char)
      requires Valid() && c != NUL
      modifies this, editBuffer
      ensures Valid() && Model() == Apply(old(Model()), Type(c))
      ensures term == EchoAll(old(term), Output(old(Model()), Type(c)))
      ensures fresh(editBuffer) || editBuffer == old(editBuffer)
    {
      ghost var l := Model();
      var n := StrLen();
      if n + 2 >= editBuffer.Length {
        Expand();
      }
      if cursorPos >= n {
        AppendChar(n, c);
      } else {
        InsertChar(n, c);
      }
      cursorPos := cursorPos + 1;
      text := Insert(l, c).text;
      ApplyOk(l, Type(c));
    }

    method AppendChar(n: int, c: char)
      requires Stored(editBuffer, text) && n == |text| == cursorPos && n + 1 < editBuffer.Length && c != NUL
      requires TermOk(term)
      modifies editBuffer, this`term
      ensures Stored(editBuffer, Insert(Model(), c).text)
      ensures TermOk(term) && term == EchoAll(old(term), Output(Model(), Type(c)))
    {
      editBuffer[n] := c;
      editBuffer[n + 1] := NUL;
      assert Output(Model(), Type(c)) == [c];
      PutChar(c);
    }

    method InsertChar(n: int, c: char)
      requires Stored(editBuffer, text) && n == |text| && n + 1 < editBuffer.Length
      requires 0 <= cursorPos < n && c != NUL && TermOk(term)
      modifies editBuffer, this`term
      ensures Stored(editBuffer, Insert(Model(), c).text)
      ensures TermOk(term) && term == EchoAll(old(term), Output(Model(), Type(c)))
    {
      StoreAtCursor(n, c);
      EchoConcat(term, [c] + text[cursorPos..], Backs(n - cursorPos));
      PutRange(cursorPos, n + 1);
      PutBack(n - cursorPos);
    }

    method StoreAtCursor(n: int, c: char)
      requires Stored(editBuffer, text) && n == |text| && n + 1 < editBuffer.Length && 0 <= cursorPos < n && c != NUL
      modifies editBuffer
      ensures Stored(editBuffer, Insert(Model(), c).text)
      ensures editBuffer[cursorPos..n + 1] == [c] + text[cursorPos..]
    {
      ShiftUp(n);
      editBuffer[cursorPos] := c;
      ghost var t := Insert(Model(), c).text;
      assert |t| == n + 1;
      assert forall k :: 0 <= k <= n ==> editBuffer[k] == t[k];
    }

    /** Moves the rest of the line one down over the character before `from`, echoing as it goes. */
    method ShiftDownEcho(n: int, from: int)
      requires Stored(editBuffer, text) && n == |text| && 1 <= from <= n + 1 && TermOk(term)
      modifies editBuffer, this`term
      ensures forall k :: 0 <= k < from - 1 ==> editBuffer[k] == text[k]
      ensures forall k :: from - 1 <= k < n ==> editBuffer[k] == (text + [NUL])[k + 1]
      ensures TermOk(term) && term == EchoAll(old(term), (text + [NUL])[from..])
    {
      ghost var b := text + [NUL];
      var i := from;
      assert b[from..from] == [];
      while i <= n
        invariant from <= i <= n + 1
        invariant forall k :: 0 <= k < from - 1 ==> editBuffer[k] == b[k]
        invariant forall k :: from - 1 <= k < i - 1 ==> editBuffer[k] == b[k + 1]
        invariant forall k :: i - 1 <= k <= n ==> editBuffer[k] == b[k]
        invariant TermOk(term) && term == EchoAll(old(term), b[from..i])
      {
        editBuffer[i - 1] := editBuffer[i];
        EchoConcat(old(term), b[from..i], [b[i]]);
        PutChar(editBuffer[i - 1]);
        assert b[from..i + 1] == b[from..i] + [b[i]];
        i := i + 1;
      }
      assert b[from..i] == b[from..];
    }

    method HandleBackspace()
      requires Valid()
      modifies this, editBuffer
      ensures Valid() && Model() == Apply(old(Model()), Backspace) && editBuffer == old(editBuffer)
      ensures term == EchoAll(old(term), Output(old(Model()), Backspace))
    {
      ghost var l := Model();
      var n := StrLen();
      if cursorPos > 0 {
        EchoConcat(term, [BACK], text[cursorPos..] + [NUL] + Backs(n - cursorPos + 1));
        PutChar(BACK);
        CloseLeft(n);
        cursorPos := cursorPos - 1;
        text := EraseLeft(l).text;
        ApplyOk(l, Backspace);
      }
    }

    method CloseLeft(n: int)
      requires LineOk(Model()) && Stored(editBuffer, text) && n == |text| && 0 < cursorPos && TermOk(term)
      modifies editBuffer, this`term
      ensures Stored(editBuffer, EraseLeft(Model()).text)
      ensures TermOk(term) && term == EchoAll(old(term), text[cursorPos..] + [NUL] + Backs(n - cursorPos + 1))
    {
      ghost var s := text[cursorPos..] + [NUL];
      assert (text + [NUL])[cursorPos..] == s;
      EchoConcat(term, s, Backs(|s|));
      ShiftDownEcho(n, cursorPos);
      PutBack(n - cursorPos + 1);
    }

    method HandleDelete()
      requires Valid()
      modifies this, editBuffer
      ensures Valid() && Model() == Apply(old(Model()), Delete) && editBuffer == old(editBuffer)
      ensures term == EchoAll(old(term), Output(old(Model()), Delete))
    {
      ghost var l, t := Model(), term;
      var n := StrLen();
      if cursorPos < n {
        EchoConcat(t, text[cursorPos + 1..] + [NUL, ' '], Backs(n - cursorPos + 1));
        assert text[cursorPos..][1..] == text[cursorPos + 1..];
        CloseGap(n);
        PutBack(n - cursorPos + 1);
        text := EraseRight(l).text;
        ApplyOk(l, Delete);
      }
    }

    method CloseGap(n: int)
      requires LineOk(Model()) && Stored(editBuffer, text) && n == |text| && cursorPos < n && TermOk(term)
      modifies editBuffer, this`term
      ensures Stored(editBuffer, EraseRight(Model()).text)
      ensures TermOk(term) && term == EchoAll(old(term), text[cursorPos + 1..] + [NUL, ' '])
    {
      ghost var s := text[cursorPos + 1..] + [NUL];
      assert (text + [NUL])[cursorPos + 1..] == s;
      EchoConcat(term, s, [' ']);
      ShiftDownEcho(n, cursorPos + 1);
      PutChar(' ');
      assert s + [' '] == text[cursorPos + 1..] + [NUL, ' '];
    }

    method CommitInput()
      requires Valid()
      modifies this, editBuffer
      ensures Valid() && Model() == Apply(old(Model()), Enter) && editBuffer == old(editBuffer)
      ensures term == EchoAll(old(term), Output(old(Model()), Enter))
    {
      ghost var l := Model();
      var n := StrLen();
      var value := editBuffer[..n];
      assert value == text;
      sent := sent + value;
      PutChar('\n');
      sent := sent + "\n";
      selected := -1;
      log := [value] + log;
      editBuffer[0] := NUL;
      cursorPos := 0;
      text := "";
      ApplyOk(l, Enter);
    }

    /** Wipes the shown line: to its end, then back over every character. */
    method WipeLine()
      requires Valid()
      modifies this`term
      ensures TermOk(term) && term == EchoAll(old(term), text[cursorPos..] + Wipes(|text|))
    {
      var n := StrLen();
      ghost var t := term;
      EchoConcat(t, text[cursorPos..], Wipes(n));
      assert editBuffer[cursorPos..n] == text[cursorPos..];
      PutRange(cursorPos, n);
      var i := 0;
      while i < n
        invariant 0 <= i <= n && TermOk(term) && EchoAll(term, Wipes(n - i)) == EchoAll(t, text[cursorPos..] + Wipes(n))
      {
        WipeChar(n - i);
        i := i + 1;
      }
    }

    method WipeChar(ghost k: nat)
      requires TermOk(term) && k > 0
      modifies this`term
      ensures TermOk(term) && EchoAll(term, Wipes(k - 1)) == EchoAll(old(term), Wipes(k))
    {
      EchoConcat(term, [BACK, ' ', BACK], Wipes(k - 1));
      EchoConcat(term, [BACK, ' '], [BACK]);
      EchoConcat(term, [BACK], [' ']);
      PutChar(BACK);
      PutChar(' ');
      PutChar(BACK);
    }

    /** Every entry fits, since the buffer never shrinks. */
    method CopyIn(value: string)
      requires |value| < editBuffer.Length && NoNul(value)
      modifies editBuffer
      ensures Stored(editBuffer, value)
    {
      var i := 0;
      while i < |value|
        invariant 0 <= i <= |value| && forall k :: 0 <= k < i ==> editBuffer[k] == value[k]
      {
        editBuffer[i] := value[i];
        i := i + 1;
      }
      editBuffer[i] := NUL;
    }

    method SwitchToEntry(k: int)
      requires Valid() && -1 <= k <= |log|
      modifies this, editBuffer
      ensures Valid() && Model() == Select(old(Model()), k) && editBuffer == old(editBuffer)
      ensures term == EchoAll(old(term),
          old(text)[old(cursorPos)..] + Wipes(|old(text)|) + Select(old(Model()), k).text)
    {
      EchoConcat(term, text[cursorPos..] + Wipes(|text|), Select(Model(), k).text);
      WipeLine();
      if 0 <= k < |log| {
        ShowEntry(k);
      } else {
        selected := -1;
        cursorPos := 0;
        editBuffer[0] := NUL;
        text := "";
      }
    }

    method ShowEntry(k: int)
      requires LineOk(Model()) && 0 <= k < |log| && (forall j :: 0 <= j < |log| ==> |log[j]| < editBuffer.Length)
      requires editBuffer.Length >= 2 && TermOk(term)
      modifies this`selected, this`text, this`cursorPos, this`term, editBuffer
      ensures Valid() && Model() == Select(old(Model()), k) && term == EchoAll(old(term), log[k])
    {
      selected := k;
      CopyIn(log[k]);
      text := log[k];
      var n := StrLen();
      cursorPos := n;
      assert editBuffer[0..n] == text;
      PutRange(0, n);
    }

    method MoveTo(e: Event)
      requires Valid() && (e.Home? || e.End? || e.Left? || e.Right?)
      modifies this`term, this`cursorPos
      ensures Valid() && Model() == Apply(old(Model()), e)
      ensures term == EchoAll(old(term), Output(old(Model()), e))
    {
      var n := StrLen();
      match e {
        case Home =>
          PutBack(cursorPos);
          cursorPos := 0;
        case Left =>
          if cursorPos > 0 {
            PutBack(1);
            cursorPos := cursorPos - 1;
          }
        case Right =>
          if cursorPos < n {
            PutChar(editBuffer[cursorPos]);
            cursorPos := cursorPos + 1;
          }
        case End =>
          assert editBuffer[cursorPos..n] == text[cursorPos..];
          PutRange(cursorPos, n);
          cursorPos := n;
      }
    }

    /** Every key event does to the line what it means, and echoes what the terminal needs. */
    method ProcessEvent(e: Event)
      requires Valid() && EventOk(e)
      modifies this, editBuffer
      ensures Valid() && Model() == Apply(old(Model()), e)
      ensures term == EchoAll(old(term), Output(old(Model()), e))
      ensures fresh(editBuffer) || editBuffer == old(editBuffer)
    {
      match e {
        case Enter => CommitInput();
        case Backspace => HandleBackspace();
        case Delete => HandleDelete();
        case Up => SwitchToEntry(if selected == -1 then 0 else selected + 1);
        case Down => SwitchToEntry(if selected == -1 then 0 else selected - 1);
        case Type(c) => AddChar(c);
        case _ => MoveTo(e);
      }
    }

    /** And so for every sequence of events; as long as they type only printable characters, the line is shown. */
    method ProcessAll(events: seq<Event>)
      requires Valid() && EventsOk(events)
      modifies this, editBuffer
      ensures Valid() && Model() == Run(old(Model()), events)
      ensures TermOk(old(term)) && term == Screen(old(term), old(Model()), events)
      ensures (forall i :: 0 <= i < |events| ==> EventPlain(events[i])) ==>
                old(ShowsLine(term, Model()) && LinePlain(Model())) ==> ShowsLine(term, Model())
    {
      ghost var l, t := Model(), term;
      var i := 0;
      while i < |events|
        invariant 0 <= i <= |events| && Valid() && (fresh(editBuffer) || editBuffer == old(editBuffer))
        invariant EventsOk(events[i..]) && Run(Model(), events[i..]) == Run(l, events)
        invariant Screen(term, Model(), events[i..]) == Screen(t, l, events)
      {
        assert events[i..][0] == events[i] && events[i..][1..] == events[i + 1..];
        ProcessEvent(events[i]);
        i := i + 1;
      }
      if ShowsLine(t, l) && LinePlain(l) && (forall i :: 0 <= i < |events| ==> EventPlain(events[i])) {
        RunShows(t, l, events);
      }
    }
  }
}
