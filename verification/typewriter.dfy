/** The typewriter of the ISPER page (src/pages/Isper/index.js, initTypewriter).

    Each tick of `type()` reveals one more character of
    `line1 + ' ' + line2`, shows the part up to the end of `line1` on the
    first line and the rest, after the separating space, on the second, and
    puts the blinking cursor on the line being typed. One tick after the last
    character it shows both lines in full and stops scheduling itself. The
    `setTimeout` pacing (500 ms, then 80 ms or 30 ms) is not modelled; a run is
    a number of ticks. */
module Typewriter {

  /** The two lines the ISPER page types. */
  const Line1: string := "Copy,  Paste... "
  const Line2: string := "GO!"

  function FullText(line1: string, line2: string): string {
    line1 + " " + line2
  }

  /** `s.substring(0, n)` for n >= 0. */
  function Prefix(s: string, n: int): (r: string)
    ensures |r| == if n < 0 then 0 else if n < |s| then n else |s|
    ensures r == s[..|r|]
  {
    if n <= 0 then [] else if n < |s| then s[..n] else s
  }

  /** `s.substring(n)` for n >= 0. */
  function Suffix(s: string, n: nat): string {
    if n < |s| then s[n..] else []
  }

  datatype Typer = Typer(
    charIndex: int,
    deleting: bool,
    shown1: string,
    shown2: string,
    cursor1: bool,
    cursor2: bool,
    running: bool)

  const Start := Typer(0, false, "", "", false, false, true)

  /** One call of `type()`, including the deleting branch as written. */
  function Tick(t: Typer, line1: string, line2: string): (r: Typer)
    ensures !t.running ==> r == t
    ensures t.running && !t.deleting ==> r.charIndex == t.charIndex + 1 && !r.deleting
  {
    if !t.running then t
    else
      var full := FullText(line1, line2);
      var ci := if t.deleting then t.charIndex - 1 else t.charIndex + 1;
      var current := Prefix(full, if t.deleting then t.charIndex else ci);
      if !t.deleting && ci > |full| then
        t.(charIndex := ci, shown1 := line1, shown2 := line2, cursor2 := true, running := false)
      else
        var deleting := t.deleting && ci != 0;
        var shown1 := if |current| <= |line1| then current else line1;
        var shown2 := if |current| <= |line1| then [] else Suffix(current, |line1| + 1);
        var onLine1 := |current| <= |line1|;
        var cursorMoves := !deleting && ci <= |full|;
        Typer(ci, deleting, shown1, shown2,
              if cursorMoves then onLine1 else t.cursor1,
              if cursorMoves then !onLine1 else t.cursor2,
              true)
  }

  function Ticks(t: Typer, line1: string, line2: string, n: nat): Typer
    decreases n
  {
    if n == 0 then t else Tick(Ticks(t, line1, line2, n - 1), line1, line2)
  }

  /** What the display shows after the tick that revealed `c` characters. */
  predicate Shows(t: Typer, line1: string, line2: string, c: nat)
    requires c <= |FullText(line1, line2)|
  {
    var current := Prefix(FullText(line1, line2), c);
    && t.charIndex == c && !t.deleting && t.running
    && (|current| <= |line1| ==> t.shown1 == current && t.shown2 == [] && t.cursor1 && !t.cursor2)
    && (|current| > |line1| ==>
          && t.shown1 == line1
          && t.shown2 == line2[..c - |line1| - 1]
          && !t.cursor1 && t.cursor2)
  }

  /** After n ticks, n <= |fullText|: n characters are revealed, the first
      line shows the part within `line1`, the second line shows a prefix of
      `line2`, and the cursor is on the line being typed. The deleting branch
      is never taken. */
  lemma {:induction false} TypingProgress(line1: string, line2: string, n: nat)
    requires 1 <= n <= |FullText(line1, line2)|
    ensures Shows(Ticks(Start, line1, line2, n), line1, line2, n)
    decreases n
  {
    if n > 1 {
      TypingProgress(line1, line2, n - 1);
    }
    var full := FullText(line1, line2);
    var current := Prefix(full, n);
    assert current == full[..n];
    if n > |line1| {
      assert Suffix(current, |line1| + 1) == line2[..n - |line1| - 1];
    } else {
      assert n <= |line1|;
    }
  }

  lemma {:induction false} TicksSplit(t: Typer, line1: string, line2: string, m: nat, e: nat)
    ensures Ticks(t, line1, line2, m + e) == Ticks(Ticks(t, line1, line2, m), line1, line2, e)
    decreases e
  {
    if e > 0 {
      TicksSplit(t, line1, line2, m, e - 1);
    }
  }

  lemma {:induction false} StaysStopped(t: Typer, line1: string, line2: string, e: nat)
    requires !t.running
    ensures Ticks(t, line1, line2, e) == t
    decreases e
  {
    if e > 0 {
      StaysStopped(t, line1, line2, e - 1);
    }
  }

  /** One tick after the last character, both lines are complete, the cursor
      blinks on the second line, and no later tick changes anything. */
  lemma TypingEnds(line1: string, line2: string, extra: nat)
    ensures var t := Ticks(Start, line1, line2, |FullText(line1, line2)| + 1 + extra);
      && !t.running && t.shown1 == line1 && t.shown2 == line2 && t.cursor2 && !t.cursor1
      && t.charIndex == |FullText(line1, line2)| + 1
  {
    var len := |FullText(line1, line2)|;
    TypingProgress(line1, line2, len);
    var done := Ticks(Start, line1, line2, len + 1);
    assert !done.running;
    TicksSplit(Start, line1, line2, len + 1, extra);
    StaysStopped(done, line1, line2, extra);
  }

  /** On the ISPER page, 16 ticks type "Copy,  Paste... " on the first line
      with the second still empty, and from the 21st tick on the display
      holds both lines and typing has stopped. */
  lemma PageTyping(extra: nat)
    ensures var t := Ticks(Start, Line1, Line2, 16);
      t.shown1 == Line1 && t.shown2 == [] && t.cursor1 && t.running
    ensures var t := Ticks(Start, Line1, Line2, 21 + extra);
      !t.running && t.shown1 == Line1 && t.shown2 == Line2 && t.cursor2
  {
    assert |FullText(Line1, Line2)| == 20;
    TypingProgress(Line1, Line2, 16);
    assert Prefix(FullText(Line1, Line2), 16) == Line1;
    TypingEnds(Line1, Line2, extra);
  }
}
