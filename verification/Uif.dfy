/** The command line of uif.c: reading a line from a keyboard and splitting it in place. */
module Uif {
  import opened Common

  const MAX_ARGS: nat := 10
  const MAX_LINE: nat := 80
  const NULL_PTR: int := -1

  // ---------- get_line ----------

  predicate EndsLine(key: int) { key == 0x0D || key == 0x0A }

  predicate Erases(key: int) { key == 0x08 || key == 0x7F }

  /** What one key does to the text typed so far. */
  function Typed(text: seq<char>, key: int): seq<char> {
    if Erases(key) then (if text == [] then [] else text[..|text| - 1])
    else if |text| + 1 < MAX_LINE && 0x1F < key < 0x80 then text + [key as char]
    else text
  }

  /** What it echoes. */
  function Echo(text: seq<char>, key: int): seq<char> {
    if Erases(key) then (if text == [] then [] else [8 as char, ' ', 8 as char])
    else if |text| + 1 < MAX_LINE && 0x1F < key < 0x80 then [key as char]
    else []
  }

  /** The text after the first `n` keys, from an empty line. */
  function TextAfter(keys: seq<int>, n: nat): (text: seq<char>)
    requires n <= |keys|
    ensures |text| < MAX_LINE
  {
    if n == 0 then [] else Typed(TextAfter(keys, n - 1), keys[n - 1])
  }

  /** Only printable characters get into the line. */
  lemma {:induction false} TextIsPrintable(keys: seq<int>, n: nat)
    requires n <= |keys|
    ensures forall i :: 0 <= i < |TextAfter(keys, n)| ==> ' ' <= TextAfter(keys, n)[i] < 0x7F as char
  {
    if n > 0 { TextIsPrintable(keys, n - 1); }
  }

  function EchoAfter(keys: seq<int>, n: nat): seq<char>
    requires n <= |keys|
  {
    if n == 0 then [] else EchoAfter(keys, n - 1) + Echo(TextAfter(keys, n - 1), keys[n - 1])
  }

  /** A key that prints is added if there is room; either erasing key then takes it back; any other key
      changes nothing. */
  lemma TypedThenErased(text: seq<char>, key: int, erase: int)
    requires erase == 8 || erase == 127
    ensures 32 <= key <= 126 && |text| <= 78 ==> Typed(text, key) == text + [key as char]
    ensures 32 <= key <= 126 && |text| <= 78 ==> Typed(Typed(text, key), erase) == text
    ensures !(32 <= key <= 126 && |text| <= 78) && key != 8 && key != 127 ==> Typed(text, key) == text
    ensures Typed([], erase) == []
  {
  }

  // ---------- What the user sees ----------

  /** A line of a terminal: its characters, and the position of the next one. */
  datatype Terminal = Terminal(cells: seq<char>, cursor: nat)

  /** A backspace moves the cursor back and erases nothing; other characters overwrite. */
  function Shown(t: Terminal, c: char): Terminal
    requires t.cursor <= |t.cells|
  {
    if c == 8 as char then Terminal(t.cells, if t.cursor > 0 then t.cursor - 1 else 0)
    else Terminal(if t.cursor < |t.cells| then t.cells[t.cursor := c] else t.cells + [c], t.cursor + 1)
  }

  function AllShown(t: Terminal, s: seq<char>): (t': Terminal)
    requires t.cursor <= |t.cells|
    ensures t'.cursor <= |t'.cells|
  {
    if s == [] then t else Shown(AllShown(t, s[..|s| - 1]), s[|s| - 1])
  }

  lemma ShownSnoc(t: Terminal, s: seq<char>, c: char)
    requires t.cursor <= |t.cells|
    ensures AllShown(t, s + [c]) == Shown(AllShown(t, s), c)
  {
    assert (s + [c])[..|s|] == s;
  }

  lemma ShownThree(t: Terminal, s: seq<char>, a: char, b: char, c: char)
    requires t.cursor <= |t.cells|
    ensures AllShown(t, s + [a, b, c]) == Shown(Shown(Shown(AllShown(t, s), a), b), c)
  {
    assert s + [a, b, c] == s + [a] + [b] + [c];
    ShownSnoc(t, s + [a] + [b], c);
    ShownSnoc(t, s + [a], b);
    ShownSnoc(t, s, a);
  }

  /** The terminal shows the prompt, the text and blanks, and the cursor is behind the text. */
  ghost predicate Displays(t: Terminal, prompt: seq<char>, text: seq<char>) {
    && t.cursor == |prompt| + |text| <= |t.cells| && t.cells[..t.cursor] == prompt + text
    && forall i :: t.cursor <= i < |t.cells| ==> t.cells[i] == ' '
  }

  lemma AddedDisplayed(t: Terminal, prompt: seq<char>, text: seq<char>, c: char)
    requires Displays(t, prompt, text) && c != 8 as char
    ensures Displays(Shown(t, c), prompt, text + [c])
  {
    var t' := Shown(t, c);
    assert t'.cells[..t'.cursor] == t.cells[..t.cursor] + [c];
    Associative(prompt, text, [c]);
  }

  lemma ErasedDisplayed(t: Terminal, prompt: seq<char>, text: seq<char>)
    requires Displays(t, prompt, text) && text != []
    ensures Displays(Shown(Shown(Shown(t, 8 as char), ' '), 8 as char), prompt, text[..|text| - 1])
  {
    var n := t.cursor - 1;
    var t' := Shown(Shown(Shown(t, 8 as char), ' '), 8 as char);
    assert t' == Terminal(t.cells[n := ' '], n);
    assert t'.cells[..n] == t.cells[..t.cursor][..n];
    assert (prompt + text)[..n] == prompt + text[..|text| - 1];
  }

  lemma KeyDisplayed(t: Terminal, prompt: seq<char>, text: seq<char>, key: int, s: seq<char>)
    requires t.cursor <= |t.cells| && Displays(AllShown(t, s), prompt, text)
    ensures Displays(AllShown(t, s + Echo(text, key)), prompt, Typed(text, key))
  {
    var e, t' := Echo(text, key), AllShown(t, s);
    if e == [] {
      assert s + e == s;
    } else if Erases(key) {
      ShownThree(t, s, 8 as char, ' ', 8 as char);
      ErasedDisplayed(t', prompt, text);
    } else {
      ShownSnoc(t, s, key as char);
      AddedDisplayed(t', prompt, text, key as char);
    }
  }

  /** A terminal that obeys the echo shows the line behind the prompt, after every key. */
  lemma {:induction false} EchoDisplays(prompt: seq<char>, keys: seq<int>, n: nat)
    requires n <= |keys|
    ensures Displays(AllShown(Terminal(prompt, |prompt|), EchoAfter(keys, n)), prompt, TextAfter(keys, n))
  {
    if n > 0 {
      EchoDisplays(prompt, keys, n - 1);
      KeyDisplayed(Terminal(prompt, |prompt|), prompt, TextAfter(keys, n - 1), keys[n - 1], EchoAfter(keys, n - 1));
    }
  }

  /** One key: the line is edited in place. */
  method TakeKey(line: array<char>, pos0: nat, ch: int) returns (pos: nat, echo: seq<char>)
    requires line.Length == MAX_LINE && pos0 < MAX_LINE
    modifies line
    ensures pos < MAX_LINE && line[..pos] == Typed(old(line[..pos0]), ch)
    ensures echo == Echo(old(line[..pos0]), ch)
  {
    pos, echo := pos0, [];
    if ch == 0x08 || ch == 0x7F {
      if pos > 0 {
        pos := pos - 1;
        echo := [8 as char, ' ', 8 as char];
      }
    } else if pos + 1 < MAX_LINE {
      if ch > 0x1F && ch < 0x80 {
        line[pos] := ch as char;
        pos := pos + 1;
        echo := [ch as char];
      }
    }
  }

  /** Keys up to the end of the line; the stream has one, or the source would wait for it. */
  method GetLine(line: array<char>, keys: seq<int>, ghost n: nat) returns (out: seq<char>)
    requires line.Length == MAX_LINE
    requires n < |keys| && EndsLine(keys[n]) && forall i :: 0 <= i < n ==> !EndsLine(keys[i])
    modifies line
    ensures var text := TextAfter(keys, n);
            line[..|text|] == text && line[|text|] == '\0'
    ensures out == EchoAfter(keys, n) + ['\r', '\n']
  {
    var pos := 0;
    out := [];
    var i := 0;
    var ch := keys[i];
    while ch != 0x0D && ch != 0x0A && pos < MAX_LINE
      invariant 0 <= i <= n && ch == keys[i]
      invariant 0 <= pos < MAX_LINE && line[..pos] == TextAfter(keys, i)
      invariant out == EchoAfter(keys, i)
      decreases n - i
    {
      var echo;
      pos, echo := TakeKey(line, pos, ch);
      out := out + echo;
      i := i + 1;
      ch := keys[i];
    }
    line[pos] := '\0';
    out := out + ['\r', '\n'];
  }

  // ---------- make_argv ----------

  /** The end of the non-blank run that reaches position `i`. */
  function RunEnd(t: seq<char>, i: nat): (e: nat)
    requires i <= |t|
    ensures i <= e <= |t|
    decreases |t| - i
  {
    if i < |t| && !Blank(t[i]) then RunEnd(t, i + 1) else i
  }

  lemma {:induction false} RunEndStops(t: seq<char>, i: nat)
    requires i <= |t|
    ensures RunEnd(t, i) < |t| ==> Blank(t[RunEnd(t, i)])
    ensures forall k :: i <= k < RunEnd(t, i) ==> !Blank(t[k])
    decreases |t| - i
  {
    if i < |t| && !Blank(t[i]) { RunEndStops(t, i + 1); }
  }

  /** The runs from `i` on, as pairs of start and end. */
  function Runs(t: seq<char>, i: nat): seq<(nat, nat)>
    requires i <= |t|
    decreases |t| - i
  {
    if i == |t| then []
    else if Blank(t[i]) then Runs(t, i + 1)
    else [(i, RunEnd(t, i))] + Runs(t, RunEnd(t, i))
  }

  /** [a, b) is a maximal run of characters that are not blank. */
  predicate IsWord(t: seq<char>, a: nat, b: nat) {
    && a < b <= |t|
    && (forall k :: a <= k < b ==> !Blank(t[k]))
    && (a > 0 ==> Blank(t[a - 1])) && (b < |t| ==> Blank(t[b]))
  }

  /** `Runs` lists exactly the maximal runs, in order. */
  lemma {:induction false} RunsAreWords(t: seq<char>, i: nat)
    requires i <= |t| && (i > 0 && i < |t| ==> Blank(t[i - 1]) || Blank(t[i]))
    ensures forall k :: 0 <= k < |Runs(t, i)| ==> i <= Runs(t, i)[k].0 && IsWord(t, Runs(t, i)[k].0, Runs(t, i)[k].1)
    ensures forall k, l :: 0 <= k < l < |Runs(t, i)| ==> Runs(t, i)[k].1 < Runs(t, i)[l].0
    decreases |t| - i
  {
    if i < |t| {
      if Blank(t[i]) {
        RunsAreWords(t, i + 1);
      } else {
        var e := RunEnd(t, i);
        RunEndStops(t, i);
        RunsAreWords(t, e);
        var r := Runs(t, e);
        assert Runs(t, i) == [(i, e)] + r;
        forall k | 0 <= k < |r| ensures e < r[k].0 {
          assert IsWord(t, r[k].0, r[k].1);
        }
      }
    }
  }

  lemma {:induction false} WordsAreRuns(t: seq<char>, i: nat, a: nat, b: nat)
    requires i <= a && IsWord(t, a, b)
    ensures (a, b) in Runs(t, i)
    decreases |t| - i
  {
    if Blank(t[i]) {
      WordsAreRuns(t, i + 1, a, b);
    } else {
      var e := RunEnd(t, i);
      RunEndStops(t, i);
      if a == i {
        assert e == b by { RunEndUnique(t, a, b); }
        assert Runs(t, i)[0] == (a, b);
      } else {
        assert e <= a - 1;
        WordsAreRuns(t, e, a, b);
        var k :| 0 <= k < |Runs(t, e)| && Runs(t, e)[k] == (a, b);
        assert Runs(t, i)[k + 1] == (a, b);
      }
    }
  }

  lemma RunEndUnique(t: seq<char>, a: nat, b: nat)
    requires IsWord(t, a, b)
    ensures RunEnd(t, a) == b
  {
    RunEndStops(t, a);
  }

  /** The line after the ends of the first `c` runs that lie before position `i` have been overwritten. */
  function Cut(orig: seq<char>, runs: seq<(nat, nat)>, c: nat, i: nat): (line: seq<char>)
    requires c <= |runs|
    ensures |line| == |orig|
  {
    seq(|orig|, j requires 0 <= j < |orig| =>
      if j < i && exists k :: 0 <= k < c && runs[k].1 == j then '\0' else orig[j])
  }

  /** Where the scan at `i` stands: `argc` runs have started, and if it is inside a run that is the
      last of them. */
  ghost predicate Scanned(t: seq<char>, runs: seq<(nat, nat)>, i: nat, argc: nat, inText: bool) {
    && i <= |t| && argc <= |runs|
    && if inText
       then argc > 0 && runs[argc - 1].0 < i && runs[argc - 1].1 == RunEnd(t, i)
            && Runs(t, RunEnd(t, i)) == runs[argc..] && EndBefore(runs, argc - 1, i)
       else Runs(t, i) == runs[argc..] && EndBefore(runs, argc, i)
  }

  /** The first `c` runs end before `i`. */
  ghost predicate EndBefore(runs: seq<(nat, nat)>, c: nat, i: nat)
    requires c <= |runs|
  {
    forall k :: 0 <= k < c ==> runs[k].1 < i
  }

  /** Scan position and line together. */
  ghost predicate At(line: seq<char>, orig: seq<char>, t: seq<char>, runs: seq<(nat, nat)>,
                     i: nat, argc: nat, inText: bool) {
    && t <= orig && Scanned(t, runs, i, argc, inText) && line == Cut(orig, runs, argc, i)
  }

  /** One step over a blank: a run that ends here is cut. */
  lemma ScanBlank(line: seq<char>, orig: seq<char>, t: seq<char>, runs: seq<(nat, nat)>,
                  i: nat, argc: nat, inText: bool)
    requires At(line, orig, t, runs, i, argc, inText) && i < |t| && Blank(t[i])
    ensures At(if inText then line[i := '\0'] else line, orig, t, runs, i + 1, argc, false)
  {
    RunEndStops(t, i);
    assert (if inText then line[i := '\0'] else line) == Cut(orig, runs, argc, i + 1);
  }

  lemma ScanInside(line: seq<char>, orig: seq<char>, t: seq<char>, runs: seq<(nat, nat)>, i: nat, argc: nat)
    requires At(line, orig, t, runs, i, argc, true) && i < |t| && !Blank(t[i])
    ensures At(line, orig, t, runs, i + 1, argc, true)
  {
    assert line == Cut(orig, runs, argc, i + 1);
  }

  lemma ScanStart(line: seq<char>, orig: seq<char>, t: seq<char>, runs: seq<(nat, nat)>, i: nat, argc: nat)
    requires At(line, orig, t, runs, i, argc, false) && i < |t| && !Blank(t[i])
    ensures argc < |runs| && runs[argc].0 == i
    ensures At(line, orig, t, runs, i + 1, argc + 1, true)
    ensures line == Cut(orig, runs, argc, |t|)
  {
    assert runs[argc..][0] == (i, RunEnd(t, i)) && runs[argc..][1..] == runs[argc + 1..];
    assert RunEnd(t, i) == RunEnd(t, i + 1);
    assert line == Cut(orig, runs, argc + 1, i + 1);
    assert line == Cut(orig, runs, argc, |t|);
  }

  lemma ScanDone(t: seq<char>, runs: seq<(nat, nat)>, argc: nat, inText: bool)
    requires Scanned(t, runs, |t|, argc, inText)
    ensures argc == |runs|
  {
  }

  lemma NextChar(line: seq<char>, orig: seq<char>, t: seq<char>, runs: seq<(nat, nat)>, i: nat, argc: nat, inText: bool)
    requires At(line, orig, t, runs, i, argc, inText) && i < |orig|
    ensures line[i] == orig[i]
  {
  }

  lemma ScanBegins(orig: seq<char>, t: seq<char>)
    requires t <= orig
    ensures At(orig, orig, t, Runs(t, 0), 0, 0, false)
  {
    var runs := Runs(t, 0);
    assert runs[0..] == runs;
    assert orig == Cut(orig, runs, 0, 0);
  }

  /** The arguments found so far point at the starts of the runs. */
  ghost predicate Pointers(argv: array?<int>, runs: seq<(nat, nat)>, argc: nat)
    reads argv
  {
    && argc <= MAX_ARGS && argc <= |runs|
    && (argv != null ==> argv.Length == MAX_ARGS + 1 && forall k :: 0 <= k < argc ==> argv[k] == runs[k].0)
  }

  /** One character of the scan, which is over if an argument starts and there is no room for it. */
  method ScanChar(cmdline: array<char>, argv: array?<int>, i: nat, argc0: nat, inText0: bool,
                  ghost orig: seq<char>, ghost t: seq<char>, ghost runs: seq<(nat, nat)>)
    returns (argc: nat, inText: bool, full: bool)
    requires i < |t| < cmdline.Length
    requires At(cmdline[..], orig, t, runs, i, argc0, inText0) && Pointers(argv, runs, argc0)
    modifies cmdline, argv
    ensures Pointers(argv, runs, argc)
    ensures !full ==> At(cmdline[..], orig, t, runs, i + 1, argc, inText)
    ensures full ==> argc == MAX_ARGS < |runs| && cmdline[..] == Cut(orig, runs, argc, |t|)
  {
    argc, inText, full := argc0, inText0, false;
    ghost var line := cmdline[..];
    assert cmdline[i] == line[i] == t[i];
    if cmdline[i] == ' ' || cmdline[i] == '\t' {
      ScanBlank(line, orig, t, runs, i, argc, inText);
      if inText {
        cmdline[i] := '\0';
        assert cmdline[..] == line[i := '\0'];
        inText := false;
      }
    } else if inText {
      ScanInside(line, orig, t, runs, i, argc);
    } else {
      ScanStart(line, orig, t, runs, i, argc);
      if argc < MAX_ARGS {
        inText := true;
        if argv != null {
          argv[argc] := i;
        }
        argc := argc + 1;
        assert cmdline[..] == line;
      } else {
        full := true;
      }
    }
  }

  /** The loop of the scan. */
  method Scan(cmdline: array<char>, argv: array?<int>,
              ghost orig: seq<char>, ghost t: seq<char>, ghost runs: seq<(nat, nat)>)
    returns (argc: nat)
    requires |t| < cmdline.Length == |orig| && t <= orig && orig[|t|] == '\0'
    requires forall k :: 0 <= k < |t| ==> t[k] != '\0'
    requires At(cmdline[..], orig, t, runs, 0, 0, false) && Pointers(argv, runs, 0)
    modifies cmdline, argv
    ensures Pointers(argv, runs, argc) && cmdline[..] == Cut(orig, runs, argc, |t|)
    ensures argc == if |runs| < MAX_ARGS then |runs| else MAX_ARGS
  {
    argc := 0;
    var i: nat := 0;
    var inText := false;
    NextChar(cmdline[..], orig, t, runs, i, argc, inText);
    while cmdline[i] != '\0'
      invariant i <= |t| && At(cmdline[..], orig, t, runs, i, argc, inText) && Pointers(argv, runs, argc)
      invariant cmdline[..][i] == orig[i]
      decreases |t| - i
    {
      var full;
      argc, inText, full := ScanChar(cmdline, argv, i, argc, inText, orig, t, runs);
      if full {
        return;
      }
      i := i + 1;
      NextChar(cmdline[..], orig, t, runs, i, argc, inText);
    }
    ScanDone(t, runs, argc, inText);
  }

  /** The number of arguments is the number of runs, at most 10; argv points at the starts of the runs
      and ends in NULL; and the ends of those runs are overwritten, nothing else.  `n` is the length of
      the line. */
  method MakeArgv(cmdline: array<char>, argv: array?<int>, ghost n: nat) returns (argc: nat)
    requires n < cmdline.Length && cmdline[n] == '\0' && forall i :: 0 <= i < n ==> cmdline[i] != '\0'
    requires argv != null ==> argv.Length == 11
    modifies cmdline, argv
    ensures var runs := Runs(old(cmdline[..n]), 0);
            && argc == (if |runs| < 10 then |runs| else 10)
            && (argv != null ==> argv[argc] == NULL_PTR && forall k :: 0 <= k < argc ==> argv[k] == runs[k].0)
            && cmdline[..] == Cut(old(cmdline[..]), runs, argc, n)
  {
    ghost var orig, t := cmdline[..], cmdline[..n];
    ghost var runs := Runs(t, 0);
    ScanBegins(orig, t);
    argc := Scan(cmdline, argv, orig, t, runs);
    if argv != null {
      argv[argc] := NULL_PTR;
    }
  }

  /** Each argument is a copy of its run: the characters are untouched, and a NUL follows. */
  lemma ArgumentIsRun(orig: seq<char>, t: seq<char>, c: nat, k: nat)
    requires t < orig && orig[|t|] == '\0' && c <= |Runs(t, 0)| && k < c
    ensures var (a, b) := Runs(t, 0)[k];
            var line := Cut(orig, Runs(t, 0), c, |t|);
            a < b <= |t| && line[a..b] == t[a..b] && line[b] == '\0' && IsWord(t, a, b)
  {
    var runs := Runs(t, 0);
    var (a, b) := runs[k];
    var line := Cut(orig, runs, c, |t|);
    RunsAreWords(t, 0);
    forall j | a <= j < b ensures line[j] == t[j] {
      forall l | 0 <= l < c ensures runs[l].1 != j {
        if l < k { assert runs[l].1 < a; }
        if l > k { assert IsWord(t, runs[l].0, runs[l].1) && b < runs[l].0 < runs[l].1; }
      }
    }
  }
}
